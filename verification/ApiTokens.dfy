/**
 Owner tokens: verification, revocation and the cleanup sweep. token_hash is UNIQUE, so the
 table is a map from hashes. Times are Unix seconds.
 */
module ApiTokens {
  import opened Options

  datatype Hash = Hash(hex: string)

  datatype Resource = Resource(kind: string, id: string)

  datatype Token = Token(prefix: string, resource: Resource, createdAt: int, expiresAt: Option<int>, lastUsedAt: Option<int>, revokedAt: Option<int>)

  type Tokens = map<Hash, Token>

  /** Revoked, or expired at this time. */
  predicate Dead(t: Token, now: int) {
    t.revokedAt.Some? || (t.expiresAt.Some? && t.expiresAt.value <= now)
  }

  predicate Accepts(tokens: Tokens, hash: Hash, resource: Resource, now: int) {
    hash in tokens && tokens[hash].resource == resource && !Dead(tokens[hash], now)
  }

  /** ValidateAPIToken: any resource of the kind will do. */
  predicate Validates(tokens: Tokens, hash: Hash, kind: string, now: int) {
    hash in tokens && tokens[hash].resource.kind == kind && !Dead(tokens[hash], now)
  }

  function AfterVerify(tokens: Tokens, hash: Hash, resource: Resource, now: int): Tokens {
    if Accepts(tokens, hash, resource, now) then tokens[hash := tokens[hash].(lastUsedAt := Some(now))] else tokens
  }

  function AfterCreate(tokens: Tokens, hash: Hash, prefix: string, resource: Resource, expiresAt: Option<int>, now: int): Tokens {
    if hash in tokens then tokens else tokens[hash := Token(prefix, resource, now, expiresAt, None, None)]
  }

  function RevokedToken(t: Token, prefix: string, now: int): Token {
    if t.prefix == prefix && t.revokedAt.None? then t.(revokedAt := Some(now)) else t
  }

  function AfterRevoke(tokens: Tokens, prefix: string, now: int): Tokens {
    map h | h in tokens :: RevokedToken(tokens[h], prefix, now)
  }

  function AfterSweep(tokens: Tokens, now: int): Tokens {
    map h | h in tokens && !Dead(tokens[h], now) :: tokens[h]
  }

  class TokenTable {
    var tokens: Tokens

    constructor ()
      ensures tokens == map[]
    {
      tokens := map[];
    }

    method CreateApiToken(hash: Hash, prefix: string, resource: Resource, expiresAt: Option<int>, now: int) returns (ok: bool)
      modifies this
      ensures ok == (hash !in old(tokens))
      ensures tokens == AfterCreate(old(tokens), hash, prefix, resource, expiresAt, now)
      ensures tokens == if ok then old(tokens)[hash := Token(prefix, resource, now, expiresAt, None, None)] else old(tokens)
    {
      if hash in tokens {
        return false;
      }
      tokens := tokens[hash := Token(prefix, resource, now, expiresAt, None, None)];
      ok := true;
    }

    method VerifyApiToken(hash: Hash, resource: Resource, now: int) returns (ok: bool)
      modifies this
      ensures ok <==>
                && hash in old(tokens) && old(tokens)[hash].resource == resource && old(tokens)[hash].revokedAt.None?
                && (old(tokens)[hash].expiresAt.None? || now < old(tokens)[hash].expiresAt.value)
      ensures tokens == if ok then old(tokens)[hash := old(tokens)[hash].(lastUsedAt := Some(now))] else old(tokens)
      ensures tokens == AfterVerify(old(tokens), hash, resource, now)
    {
      if hash !in tokens || tokens[hash].resource != resource {
        return false;
      }
      var t := tokens[hash];
      if t.revokedAt.Some? {
        return false;
      }
      if t.expiresAt.Some? && t.expiresAt.value <= now {
        return false;
      }
      tokens := tokens[hash := t.(lastUsedAt := Some(now))];
      ok := true;
    }

    /** Whether a token may be reused for a further resource of the kind. */
    method ValidateApiToken(hash: Hash, kind: string, now: int) returns (ok: bool)
      ensures ok == Validates(tokens, hash, kind, now)
      ensures ok <==>
                && hash in tokens && tokens[hash].resource.kind == kind && tokens[hash].revokedAt.None?
                && (tokens[hash].expiresAt.None? || now < tokens[hash].expiresAt.value)
    {
      if hash !in tokens || tokens[hash].resource.kind != kind {
        return false;
      }
      if tokens[hash].revokedAt.Some? {
        return false;
      }
      ok := tokens[hash].expiresAt.None? || tokens[hash].expiresAt.value > now;
    }

    method RevokeApiToken(prefix: string, now: int) returns (ok: bool)
      modifies this
      ensures ok == exists h :: h in old(tokens) && old(tokens)[h].prefix == prefix && old(tokens)[h].revokedAt.None?
      ensures tokens == AfterRevoke(old(tokens), prefix, now)
      ensures tokens.Keys == old(tokens).Keys
      ensures forall h :: h in tokens ==>
                tokens[h] == if old(tokens)[h].prefix == prefix && old(tokens)[h].revokedAt.None?
                             then old(tokens)[h].(revokedAt := Some(now)) else old(tokens)[h]
    {
      ok := exists h | h in tokens.Keys :: tokens[h].prefix == prefix && tokens[h].revokedAt.None?;
      tokens := AfterRevoke(tokens, prefix, now);
    }

    method DeleteExpiredApiTokens(now: int)
      modifies this
      ensures tokens == AfterSweep(old(tokens), now)
      ensures forall h :: h in tokens <==>
                && h in old(tokens) && old(tokens)[h].revokedAt.None?
                && (old(tokens)[h].expiresAt.None? || now < old(tokens)[h].expiresAt.value)
      ensures forall h :: h in tokens ==> tokens[h] == old(tokens)[h]
    {
      tokens := AfterSweep(tokens, now);
    }
  }

  // --- Runs ---

  datatype Event =
    | Create(hash: Hash, prefix: string, resource: Resource, expiresAt: Option<int>, now: int)
    | Verify(hash: Hash, resource: Resource, now: int)
    | Revoke(prefix: string, now: int)
    | Sweep(now: int)

  function Step(tokens: Tokens, e: Event): Tokens {
    match e
    case Create(hash, prefix, resource, expiresAt, now) => AfterCreate(tokens, hash, prefix, resource, expiresAt, now)
    case Verify(hash, resource, now) => AfterVerify(tokens, hash, resource, now)
    case Revoke(prefix, now) => AfterRevoke(tokens, prefix, now)
    case Sweep(now) => AfterSweep(tokens, now)
  }

  /** The accept or reject verdicts of a run. */
  function Verdicts(tokens: Tokens, es: seq<Event>): seq<bool>
    decreases |es|
  {
    if es == [] then []
    else (if es[0].Verify? then [Accepts(tokens, es[0].hash, es[0].resource, es[0].now)] else []) + Verdicts(Step(tokens, es[0]), es[1..])
  }

  /** The run starts no earlier than clock, time does not go back, and no created hash is one of used. */
  predicate Later(es: seq<Event>, clock: int, used: set<Hash>)
    decreases |es|
  {
    es == [] || (clock <= es[0].now && (es[0].Create? ==> es[0].hash !in used) && Later(es[1..], es[0].now, used))
  }

  /** The tables agree, except that one may still hold tokens that are dead by now. */
  ghost predicate SameAlive(full: Tokens, swept: Tokens, used: set<Hash>, now: int) {
    && swept.Keys <= full.Keys
    && (forall h :: h in swept ==> full[h] == swept[h])
    && (forall h :: h in full && h !in swept ==> h in used && Dead(full[h], now))
  }

  /** The hashes that a cleanup at this time removes. */
  function Removed(tokens: Tokens, now: int): set<Hash> {
    tokens.Keys - AfterSweep(tokens, now).Keys
  }

  lemma SweepSameAlive(tokens: Tokens, now: int)
    ensures SameAlive(tokens, AfterSweep(tokens, now), Removed(tokens, now), now)
  {
  }

  lemma StepSameAlive(full: Tokens, swept: Tokens, used: set<Hash>, clock: int, e: Event)
    requires SameAlive(full, swept, used, clock) && clock <= e.now && (e.Create? ==> e.hash !in used)
    ensures SameAlive(Step(full, e), Step(swept, e), used, e.now)
    ensures e.Verify? ==> Accepts(full, e.hash, e.resource, e.now) == Accepts(swept, e.hash, e.resource, e.now)
  {
  }

  lemma {:induction false} VerdictsSameAlive(full: Tokens, swept: Tokens, used: set<Hash>, clock: int, es: seq<Event>)
    requires SameAlive(full, swept, used, clock) && Later(es, clock, used)
    ensures Verdicts(full, es) == Verdicts(swept, es)
    decreases |es|
  {
    hide SameAlive, Step, Accepts;
    if es != [] {
      StepSameAlive(full, swept, used, clock, es[0]);
      VerdictsSameAlive(Step(full, es[0]), Step(swept, es[0]), used, es[0].now, es[1..]);
    }
  }

  /**
   The cleanup is invisible: in every later run of creations, revocations, verifications and
   further cleanups that creates none of the removed hashes again, every verdict is what it
   would have been without the cleanup. Offering a live token's hash again is such a run.
   */
  lemma CleanupIsInvisible(tokens: Tokens, at: int, es: seq<Event>)
    requires Later(es, at, Removed(tokens, at))
    ensures Verdicts(AfterSweep(tokens, at), es) == Verdicts(tokens, es)
  {
    hide Later, Verdicts;
    SweepSameAlive(tokens, at);
    VerdictsSameAlive(tokens, AfterSweep(tokens, at), Removed(tokens, at), at, es);
  }

  /**
   The premise cannot be weakened: for every hash that the cleanup removes, creating it again
   for some resource and verifying it tells the cleanup.
   */
  lemma RecreatedHashTells(tokens: Tokens, hash: Hash, prefix: string, resource: Resource, at: int)
    requires hash in Removed(tokens, at)
    ensures var es := [Create(hash, prefix, resource, None, at), Verify(hash, resource, at)];
            Verdicts(tokens, es) == [false] && Verdicts(AfterSweep(tokens, at), es) == [true]
  {
    var c, v := Create(hash, prefix, resource, None, at), Verify(hash, resource, at);
    assert [c, v][1..] == [v] && [v][1..] == [];
    forall t: Tokens ensures Verdicts(t, [c, v]) == [Accepts(Step(t, c), hash, resource, at)] {
      assert Verdicts(Step(t, c), [v]) == [Accepts(Step(t, c), hash, resource, at)] + Verdicts(Step(Step(t, c), v), []);
    }
  }

  // --- Reusing an owner token for a second paste ---

  function After(tokens: Tokens, es: seq<Event>): Tokens
    decreases |es|
  {
    if es == [] then tokens else After(Step(tokens, es[0]), es[1..])
  }

  /** A creation of this hash for this resource that finds the hash absent. */
  predicate Links(tokens: Tokens, e: Event, hash: Hash, resource: Resource) {
    e.Create? && e.hash == hash && e.resource == resource && hash !in tokens
  }

  predicate LinksInRun(tokens: Tokens, es: seq<Event>, hash: Hash, resource: Resource)
    decreases |es|
  {
    es != [] && (Links(tokens, es[0], hash, resource) || LinksInRun(Step(tokens, es[0]), es[1..], hash, resource))
  }

  /** A cleanup of the run removes this hash, whose token was by then expired or revoked. */
  predicate SweptInRun(tokens: Tokens, es: seq<Event>, hash: Hash)
    decreases |es|
  {
    es != [] && (
      || (es[0].Sweep? && hash in tokens && Dead(tokens[hash], es[0].now))
      || SweptInRun(Step(tokens, es[0]), es[1..], hash))
  }

  predicate Linked(tokens: Tokens, hash: Hash, resource: Resource) {
    hash in tokens && tokens[hash].resource == resource
  }

  /** In the first table or in one after an event of the run. */
  predicate LinkedInRun(tokens: Tokens, es: seq<Event>, hash: Hash, resource: Resource)
    decreases |es|
  {
    Linked(tokens, hash, resource) || (es != [] && LinkedInRun(Step(tokens, es[0]), es[1..], hash, resource))
  }

  lemma LinkStep(tokens: Tokens, e: Event, hash: Hash, resource: Resource)
    requires !Linked(tokens, hash, resource)
    ensures Linked(Step(tokens, e), hash, resource) <==> Links(tokens, e, hash, resource)
  {
  }

  /** Over every run, a token comes to belong to a paste exactly by a creation that finds its hash absent. */
  lemma {:induction false} LinkedIff(tokens: Tokens, es: seq<Event>, hash: Hash, resource: Resource)
    requires !Linked(tokens, hash, resource)
    ensures LinkedInRun(tokens, es, hash, resource) <==> LinksInRun(tokens, es, hash, resource)
    decreases |es|
  {
    hide Linked, Links, Step;
    if es != [] {
      LinkStep(tokens, es[0], hash, resource);
      if !Links(tokens, es[0], hash, resource) {
        LinkedIff(Step(tokens, es[0]), es[1..], hash, resource);
      }
    }
  }

  lemma PresentStep(tokens: Tokens, e: Event, hash: Hash)
    requires hash in tokens
    ensures hash in Step(tokens, e) <==> !(e.Sweep? && Dead(tokens[hash], e.now))
    ensures hash in Step(tokens, e) ==> Step(tokens, e)[hash].resource == tokens[hash].resource
  {
  }

  /** A hash that no cleanup takes stays where it is, with its paste, and no creation links it elsewhere. */
  lemma {:induction false} StaysWithFirst(tokens: Tokens, es: seq<Event>, hash: Hash, second: Resource)
    requires hash in tokens && tokens[hash].resource != second && !SweptInRun(tokens, es, hash)
    ensures hash in After(tokens, es) && After(tokens, es)[hash].resource == tokens[hash].resource
    ensures !LinkedInRun(tokens, es, hash, second)
    decreases |es|
  {
    hide Step, Dead;
    if es != [] {
      PresentStep(tokens, es[0], hash);
      StaysWithFirst(Step(tokens, es[0]), es[1..], hash, second);
    }
  }

  predicate CreatesNot(es: seq<Event>, hash: Hash) {
    forall i :: 0 <= i < |es| && es[i].Create? ==> es[i].hash != hash
  }

  /** While nobody else creates the hash, it is absent exactly when a cleanup has taken it. */
  lemma {:induction false} AbsentIffSwept(tokens: Tokens, es: seq<Event>, hash: Hash)
    requires CreatesNot(es, hash)
    ensures hash !in After(tokens, es) <==> hash !in tokens || SweptInRun(tokens, es, hash)
    decreases |es|
  {
    hide Step, Dead;
    if es != [] {
      assert CreatesNot(es[1..], hash);
      if hash in tokens { PresentStep(tokens, es[0], hash); } else { AbsentStep(tokens, es[0], hash); }
      AbsentIffSwept(Step(tokens, es[0]), es[1..], hash);
      if hash !in tokens { AbsentNotSwept(tokens, es, hash); }
    }
  }

  lemma AbsentStep(tokens: Tokens, e: Event, hash: Hash)
    requires hash !in tokens && (e.Create? ==> e.hash != hash)
    ensures hash !in Step(tokens, e)
  {
  }

  lemma AbsentNotSwept(tokens: Tokens, es: seq<Event>, hash: Hash)
    requires hash !in tokens && es != []
    ensures SweptInRun(tokens, es, hash) == SweptInRun(Step(tokens, es[0]), es[1..], hash)
  {
  }

  /**
   A valid owner token is offered for a second paste; whatever happens between the validation
   and the insertion, the insertion links it if and only if its hash is then absent. That
   takes a cleanup in between which removed the token, by then expired or revoked; and when
   nobody else offers the token meanwhile, such a cleanup is all it takes.
   */
  lemma ReuseLinksIff(tokens: Tokens, hash: Hash, at: int, es: seq<Event>, prefix: string, second: Resource, expiresAt: Option<int>, now: int)
    requires Validates(tokens, hash, second.kind, at) && tokens[hash].resource != second
    requires !LinksInRun(tokens, es, hash, second)
    ensures var create := Create(hash, prefix, second, expiresAt, now);
            && (LinkedInRun(tokens, es + [create], hash, second) <==> hash !in After(tokens, es))
            && (hash !in After(tokens, es) ==> SweptInRun(tokens, es, hash))
            && (CreatesNot(es, hash) && SweptInRun(tokens, es, hash) ==> hash !in After(tokens, es))
  {
    hide Validates, After, LinkedInRun, LinksInRun, SweptInRun, CreatesNot;
    if CreatesNot(es, hash) { AbsentIffSwept(tokens, es, hash); }
    var create := Create(hash, prefix, second, expiresAt, now);
    assert hash in tokens by { ValidIsPresent(tokens, hash, second.kind, at); }
    if !SweptInRun(tokens, es, hash) { StaysWithFirst(tokens, es, hash, second); }
    LinkedIff(tokens, es + [create], hash, second);
    LinksAppend(tokens, es, create, hash, second);
  }

  lemma ValidIsPresent(tokens: Tokens, hash: Hash, kind: string, now: int)
    ensures Validates(tokens, hash, kind, now) ==> hash in tokens
  {
  }

  lemma {:induction false} LinksAppend(tokens: Tokens, es: seq<Event>, e: Event, hash: Hash, resource: Resource)
    ensures LinksInRun(tokens, es + [e], hash, resource)
            <==> LinksInRun(tokens, es, hash, resource) || Links(After(tokens, es), e, hash, resource)
    decreases |es|
  {
    hide Links, Step;
    if es == [] {
      assert [] + [e] == [e] && [e][1..] == [];
    } else {
      assert (es + [e])[0] == es[0] && (es + [e])[1..] == es[1..] + [e];
      LinksAppend(Step(tokens, es[0]), es[1..], e, hash, resource);
    }
  }

  /**
   Both outcomes, for a token that expires at 10 and is validated at 9 for a second paste
   created at 11: without a cleanup the second paste is never linked, with one at 10 it is,
   and the token then opens it.
   */
  lemma ReuseBothWays(hash: Hash, prefix: string, first: Resource, second: Resource)
    requires first.kind == second.kind && first != second
    ensures var t: Tokens := map[hash := Token(prefix, first, 0, Some(10), None, None)];
            var create := Create(hash, prefix, second, None, 11);
            && Validates(t, hash, second.kind, 9)
            && !Accepts(After(t, [create]), hash, second, 12)
            && Accepts(After(t, [Sweep(10), create]), hash, second, 12)
  {
    var create := Create(hash, prefix, second, None, 11);
    var t: Tokens := map[hash := Token(prefix, first, 0, Some(10), None, None)];
    assert [Sweep(10), create][1..] == [create] && [create][1..] == [];
    assert Dead(t[hash], 10) && hash !in AfterSweep(t, 10);
    assert forall u: Tokens :: After(u, [create]) == Step(u, create);
    assert After(t, [Sweep(10), create]) == After(AfterSweep(t, 10), [create]);
  }

  // --- The fate of a token ---

  /** Some event of the run revokes the prefix. */
  predicate Revokes(es: seq<Event>, prefix: string) {
    exists i :: 0 <= i < |es| && es[i].Revoke? && es[i].prefix == prefix
  }

  predicate SweepsBy(es: seq<Event>, now: int) {
    forall i :: 0 <= i < |es| && es[i].Sweep? ==> es[i].now <= now
  }

  predicate Unexpired(t: Token, now: int) {
    t.expiresAt.None? || now < t.expiresAt.value
  }

  /** One event on a token: it is revoked with its prefix, and swept when it is revoked or has expired. */
  lemma FateStep(tokens: Tokens, e: Event, hash: Hash, now: int)
    requires hash in tokens && (e.Sweep? ==> e.now <= now)
    ensures hash in Step(tokens, e) ==>
              var t, t' := tokens[hash], Step(tokens, e)[hash];
              && t'.resource == t.resource && t'.prefix == t.prefix && t'.expiresAt == t.expiresAt
              && (t'.revokedAt.None? <==> t.revokedAt.None? && !(e.Revoke? && e.prefix == t.prefix))
    ensures hash !in Step(tokens, e) ==> tokens[hash].revokedAt.Some? || !Unexpired(tokens[hash], now)
  {
  }

  lemma {:induction false} FateIff(tokens: Tokens, es: seq<Event>, hash: Hash, resource: Resource, now: int)
    requires CreatesNot(es, hash) && SweepsBy(es, now)
    ensures Accepts(After(tokens, es), hash, resource, now) <==>
            && hash in tokens && tokens[hash].resource == resource && tokens[hash].revokedAt.None?
            && !Revokes(es, tokens[hash].prefix) && Unexpired(tokens[hash], now)
    decreases |es|
  {
    if es != [] {
      var t := Step(tokens, es[0]);
      assert CreatesNot(es[1..], hash) && SweepsBy(es[1..], now);
      FateIff(t, es[1..], hash, resource, now);
      hide Step, Accepts, After, Unexpired;
      if hash in tokens {
        FateStep(tokens, es[0], hash, now);
        RevokesFirst(es, tokens[hash].prefix);
      } else {
        AbsentStep(tokens, es[0], hash);
      }
    }
  }

  lemma RevokesFirst(es: seq<Event>, prefix: string)
    requires es != []
    ensures Revokes(es, prefix) <==> (es[0].Revoke? && es[0].prefix == prefix) || Revokes(es[1..], prefix)
  {
    if Revokes(es, prefix) && !(es[0].Revoke? && es[0].prefix == prefix) {
      var i :| 0 <= i < |es| && es[i].Revoke? && es[i].prefix == prefix;
      assert es[1..][i - 1] == es[i];
    }
    if Revokes(es[1..], prefix) {
      var i :| 0 <= i < |es[1..]| && es[1..][i].Revoke? && es[1..][i].prefix == prefix;
      assert es[i + 1] == es[1..][i];
    }
  }

  /**
   The whole life of a token: created under a new hash, it is accepted after any later events
   that do not create the hash again if and only if it is presented for its own resource,
   nothing has revoked its prefix since, and it has not expired.
   */
  lemma CreatedAcceptedIff(tokens: Tokens, hash: Hash, prefix: string, resource: Resource, expiresAt: Option<int>, at: int,
                           es: seq<Event>, asked: Resource, now: int)
    requires hash !in tokens && CreatesNot(es, hash) && SweepsBy(es, now)
    ensures var t := After(AfterCreate(tokens, hash, prefix, resource, expiresAt, at), es);
            Accepts(t, hash, asked, now) <==>
            asked == resource && !Revokes(es, prefix) && (expiresAt.None? || now < expiresAt.value)
  {
    hide After, Accepts, Revokes;
    FateIff(AfterCreate(tokens, hash, prefix, resource, expiresAt, at), es, hash, asked, now);
  }
}
