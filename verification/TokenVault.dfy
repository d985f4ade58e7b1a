/** Provider token families: one current refresh token per session, every retired one
    remembered, and a family compromised for good when a retired one is presented. */
module TokenVault {
  import opened Ordering
  import opened Prelude

  datatype TokenSet = TokenSet(
    accessToken: string, accessExpiresAt: int, refreshToken: Option<string>, refreshExpiresAt: Option<int>,
    tokenType: string, idToken: Option<string>)

  datatype Family = Family(sessionId: string, tokens: TokenSet, generation: int, used: set<string>, compromised: bool)

  type Vault = map<string, Family>

  type Digest = string -> string

  datatype Failure = FamilyUnavailable | ReuseDetected | Mismatch

  function Bound(v: Vault, id: string, tokens: TokenSet): Vault {
    v[id := Family(id, tokens, 1, {}, false)]
  }

  function Fetched(v: Vault, id: string): Option<TokenSet> {
    if id in v && !v[id].compromised then Some(v[id].tokens) else None
  }

  function RotateFailure(v: Vault, id: string, presented: string, sha: Digest): Option<Failure> {
    if id !in v || v[id].compromised then Some(FamilyUnavailable)
    else if sha(presented) in v[id].used then Some(ReuseDetected)
    else if v[id].tokens.refreshToken.None? || sha(v[id].tokens.refreshToken.value) != sha(presented)
      then Some(Mismatch)
    else None
  }

  function Rotated(v: Vault, id: string, presented: string, replacement: TokenSet, sha: Digest): Vault {
    match RotateFailure(v, id, presented, sha)
    case Some(ReuseDetected) => v[id := v[id].(compromised := true)]
    case Some(_) => v
    case None => v[id := v[id].(tokens := replacement, generation := v[id].generation + 1,
                                used := v[id].used + {sha(presented)})]
  }

  class TokenFamilyRecord {
    const sessionId: string
    var tokens: TokenSet
    var generation: int
    var used: set<string>
    var compromised: bool

    constructor (sessionId: string, tokens: TokenSet)
      ensures View() == Family(sessionId, tokens, 1, {}, false)
    {
      this.sessionId, this.tokens := sessionId, tokens;
      generation, used, compromised := 1, {}, false;
    }

    function View(): Family
      reads this
    {
      Family(sessionId, tokens, generation, used, compromised)
    }
  }

  class InMemoryTokenVault {
    const sha: Digest
    var families: map<string, TokenFamilyRecord>

    ghost predicate Valid()
      reads this
    {
      forall id | id in families :: families[id].sessionId == id
    }

    ghost function View(): Vault
      reads this, families.Values
    {
      map id | id in families :: families[id].View()
    }

    constructor (sha: Digest)
      ensures Valid() && View() == map[] && this.sha == sha
    {
      this.sha, families := sha, map[];
    }

    method Bind(id: string, tokens: TokenSet)
      requires Valid()
      modifies this
      ensures Valid() && fresh(families.Values - old(families.Values))
      ensures View() == Bound(old(View()), id, tokens)
    {
      var family := new TokenFamilyRecord(id, tokens);
      families := families[id := family];
    }

    method Get(id: string) returns (r: Option<TokenSet>)
      requires Valid()
      ensures r == Fetched(View(), id)
    {
      if id in families && !families[id].compromised {
        return Some(families[id].tokens);
      }
      return None;
    }

    method Rotate(id: string, presented: string, replacement: TokenSet) returns (r: Result<TokenFamilyRecord, Failure>)
      requires Valid()
      modifies families.Values
      ensures Valid()
      ensures View() == Rotated(old(View()), id, presented, replacement, sha)
      ensures match RotateFailure(old(View()), id, presented, sha)
              case Some(f) => r == Err(f)
              case None => r.Ok? && id in families && r.value == families[id]
    {
      if id !in families || families[id].compromised {
        return Err(FamilyUnavailable);
      }
      var family := families[id];
      assert forall other | other in families && other != id :: families[other] != family;
      var presentedHash := sha(presented);
      if presentedHash in family.used {
        family.compromised := true;
        return Err(ReuseDetected);
      }
      if family.tokens.refreshToken.None? || sha(family.tokens.refreshToken.value) != presentedHash {
        return Err(Mismatch);
      }
      family.used := family.used + {presentedHash};
      family.tokens := replacement;
      family.generation := family.generation + 1;
      return Ok(family);
    }

    method Revoke(id: string) returns (existed: bool)
      requires Valid()
      modifies this
      ensures Valid() && families.Values <= old(families.Values)
      ensures View() == old(View()) - {id} && (existed <==> id in old(View()))
    {
      existed := id in families;
      families := families - {id};
    }
  }

  // ---- runs

  datatype Op =
    | Bind(id: string, tokens: TokenSet)
    | Rotate(id: string, presented: string, replacement: TokenSet)
    | Revoke(id: string)

  function Step(v: Vault, sha: Digest, op: Op): Vault {
    match op
    case Bind(id, tokens) => Bound(v, id, tokens)
    case Rotate(id, presented, replacement) => Rotated(v, id, presented, replacement, sha)
    case Revoke(id) => v - {id}
  }

  function Run(v: Vault, sha: Digest, ops: seq<Op>): Vault
    decreases |ops|
  {
    if ops == [] then v else Run(Step(v, sha, ops[0]), sha, ops[1..])
  }

  /** Every accepted rotation retires one digest and counts one generation. */
  ghost predicate Counted(v: Vault) {
    forall id | id in v :: v[id].sessionId == id && v[id].generation == 1 + |v[id].used|
  }

  lemma StepKeepsCounted(v: Vault, sha: Digest, op: Op)
    requires Counted(v)
    ensures Counted(Step(v, sha, op))
  {
    match op
    case Bind(id, tokens) =>
    case Rotate(id, presented, replacement) => RotatedCounted(v, id, presented, replacement, sha);
    case Revoke(id) =>
  }

  lemma RotatedCounted(v: Vault, id: string, presented: string, replacement: TokenSet, sha: Digest)
    requires Counted(v)
    ensures Counted(Rotated(v, id, presented, replacement, sha))
  {
  }

  lemma {:induction false} RunKeepsCounted(v: Vault, sha: Digest, ops: seq<Op>)
    requires Counted(v)
    ensures Counted(Run(v, sha, ops))
    decreases |ops|
  {
    if ops != [] {
      StepKeepsCounted(v, sha, ops[0]);
      RunKeepsCounted(Step(v, sha, ops[0]), sha, ops[1..]);
    }
  }

  /** No operation of the run starts the family of `id` over or drops it. */
  predicate Untouched(ops: seq<Op>, id: string) {
    forall op | op in ops :: op.id != id || op.Rotate?
  }

  predicate NeverBound(ops: seq<Op>, id: string) {
    forall op | op in ops :: op.id != id || !op.Bind?
  }

  ghost predicate Unavailable(v: Vault, id: string) {
    id in v ==> v[id].compromised
  }

  /** Once compromised (or dropped), a family stays unavailable until it is bound anew: no
      tokens are handed out and no rotation is accepted, whatever is presented. */
  lemma {:induction false} CompromiseIsFinal(v: Vault, sha: Digest, ops: seq<Op>, id: string, presented: string)
    requires Unavailable(v, id) && NeverBound(ops, id)
    ensures var later := Run(v, sha, ops);
            && Unavailable(later, id) && Fetched(later, id).None?
            && RotateFailure(later, id, presented, sha) == Some(FamilyUnavailable)
    decreases |ops|
  {
    if ops != [] {
      assert ops[0] in ops;
      CompromiseIsFinal(Step(v, sha, ops[0]), sha, ops[1..], id, presented);
    }
  }

  /** The digests retired by the run's accepted rotations of `id`, in order. */
  function Retired(v: Vault, sha: Digest, ops: seq<Op>, id: string): seq<string>
    decreases |ops|
  {
    if ops == [] then []
    else
      (if ops[0].Rotate? && ops[0].id == id && RotateFailure(v, id, ops[0].presented, sha).None?
       then [sha(ops[0].presented)] else [])
      + Retired(Step(v, sha, ops[0]), sha, ops[1..], id)
  }

  predicate AllDifferent(xs: seq<string>) {
    forall i, j | 0 <= i < j < |xs| :: xs[i] != xs[j]
  }

  /** While a family is kept, it remembers exactly the digests it retired, each retired
      once, and its generation counts them. */
  lemma {:induction false} FamilyRemembers(v: Vault, sha: Digest, ops: seq<Op>, id: string)
    requires id in v && Untouched(ops, id)
    ensures var later, gone := Run(v, sha, ops), Retired(v, sha, ops, id);
            && id in later && later[id].used == v[id].used + SetOf(gone)
            && AllDifferent(gone) && (forall x | x in gone :: x !in v[id].used)
            && later[id].generation == v[id].generation + |gone|
    decreases |ops|
  {
    if ops == [] {
      assert SetOf<string>([]) == {};
    } else {
      hide Rotated, RotateFailure;
      var t := Step(v, sha, ops[0]);
      assert ops[0] in ops;
      StepRemembers(v, sha, ops[0], id);
      FamilyRemembers(t, sha, ops[1..], id);
      var rest := Retired(t, sha, ops[1..], id);
      if ops[0].Rotate? && ops[0].id == id && RotateFailure(v, id, ops[0].presented, sha).None? {
        ConsDifferent(sha(ops[0].presented), rest);
      } else {
        assert Retired(v, sha, ops, id) == rest;
      }
    }
  }

  lemma StepRemembers(v: Vault, sha: Digest, op: Op, id: string)
    requires id in v && (op.id != id || op.Rotate?)
    ensures id in Step(v, sha, op)
    ensures var f, g := v[id], Step(v, sha, op)[id];
            if op.Rotate? && op.id == id && RotateFailure(v, id, op.presented, sha).None?
            then g.used == f.used + {sha(op.presented)} && sha(op.presented) !in f.used
              && g.generation == f.generation + 1
            else g.used == f.used && g.generation == f.generation
  {
  }

  lemma ConsDifferent(x: string, rest: seq<string>)
    requires AllDifferent(rest) && x !in rest
    ensures AllDifferent([x] + rest) && SetOf([x] + rest) == {x} + SetOf(rest)
  {
    forall i, j | 0 <= i < j < |[x] + rest| ensures ([x] + rest)[i] != ([x] + rest)[j] {
      if i > 0 {
        assert ([x] + rest)[i] == rest[i - 1] && ([x] + rest)[j] == rest[j - 1];
      } else {
        assert ([x] + rest)[j] == rest[j - 1] && rest[j - 1] in rest;
      }
    }
  }

  /** Replay detection over whole runs: whatever token a kept family has retired, presenting
      it at any later point leaves the family unavailable. */
  lemma ReplayCompromises(v: Vault, sha: Digest, ops: seq<Op>, id: string, presented: string, replacement: TokenSet)
    requires id in v && Untouched(ops, id) && sha(presented) in Retired(v, sha, ops, id)
    ensures Unavailable(Rotated(Run(v, sha, ops), id, presented, replacement, sha), id)
  {
    FamilyRemembers(v, sha, ops, id);
    assert sha(presented) in SetOf(Retired(v, sha, ops, id));
  }

  /** A rotation is accepted exactly when the presented token is the family's current one
      and was never retired. A provider that hands a retired refresh token out again, or the
      presented one itself, locks its own family: the replacement is then refused as reuse. */
  lemma AcceptedExactly(v: Vault, id: string, presented: string, replacement: TokenSet, next: string, sha: Digest)
    requires Collisionless(sha)
    ensures RotateFailure(v, id, presented, sha).None?
       <==> && Fetched(v, id).Some? && Fetched(v, id).value.refreshToken == Some(presented)
            && sha(presented) !in v[id].used
    ensures RotateFailure(v, id, presented, sha).None? && replacement.refreshToken == Some(next) ==>
              RotateFailure(Rotated(v, id, presented, replacement, sha), id, next, sha)
              == if sha(next) in v[id].used || next == presented then Some(ReuseDetected) else None
  {
  }

  // ---- the vault as its callers know it, in tokens instead of digests

  /** The tokens that are handed out, if any, and the refresh tokens that were exchanged for
      later ones. */
  datatype Knowledge = Knowledge(current: Option<TokenSet>, exchanged: set<string>)

  /** What the calls for `id` amount to: binding starts over, revoking ends it, presenting an
      exchanged token ends it, and presenting the current refresh token exchanges it. */
  ghost function Known(ops: seq<Op>, id: string): Knowledge {
    if ops == [] then Knowledge(None, {})
    else
      var k := Known(ops[..|ops| - 1], id);
      match ops[|ops| - 1]
      case Bind(other, tokens) => if other == id then Knowledge(Some(tokens), {}) else k
      case Revoke(other) => if other == id then Knowledge(None, {}) else k
      case Rotate(other, presented, replacement) =>
        if other != id || k.current == None then k
        else if presented in k.exchanged then Knowledge(None, {})
        else if k.current.value.refreshToken != Some(presented) then k
        else Knowledge(Some(replacement), k.exchanged + {presented})
  }

  ghost predicate Collisionless(sha: Digest) {
    forall x, y :: sha(x) == sha(y) ==> x == y
  }

  lemma {:induction false} RunLast(v: Vault, sha: Digest, ops: seq<Op>)
    requires ops != []
    ensures Run(v, sha, ops) == Step(Run(v, sha, ops[..|ops| - 1]), sha, ops[|ops| - 1])
    decreases |ops|
  {
    var n := |ops| - 1;
    if n > 0 {
      RunLast(Step(v, sha, ops[0]), sha, ops[1..]);
      assert ops[1..][..n - 1] == ops[..n][1..];
    } else {
      assert ops[1..] == [] && ops[..0] == [];
    }
  }

  ghost predicate Holds(v: Vault, id: string, k: Knowledge, sha: Digest) {
    && (k.current.Some? <==> id in v && !v[id].compromised)
    && (k.current.Some? ==>
          v[id].tokens == k.current.value && forall x :: sha(x) in v[id].used <==> x in k.exchanged)
  }

  lemma {:induction false} VaultHolds(sha: Digest, ops: seq<Op>, id: string)
    requires Collisionless(sha)
    ensures Holds(Run(map[], sha, ops), id, Known(ops, id), sha)
    decreases |ops|
  {
    if ops != [] {
      RunLast(map[], sha, ops);
      VaultHolds(sha, ops[..|ops| - 1], id);
    }
  }

  /** After every run from the start the vault hands out, and answers a rotation by, exactly
      what the calls for that session amount to. */
  lemma VaultAnswers(sha: Digest, ops: seq<Op>, id: string, presented: string)
    requires Collisionless(sha)
    ensures var v, k := Run(map[], sha, ops), Known(ops, id);
            && Fetched(v, id) == k.current
            && RotateFailure(v, id, presented, sha)
               == (if k.current == None then Some(FamilyUnavailable)
                   else if presented in k.exchanged then Some(ReuseDetected)
                   else if k.current.value.refreshToken != Some(presented) then Some(Mismatch)
                   else None)
  {
    hide Known;
    VaultHolds(sha, ops, id);
  }
}
