/** What a route hands back, the ordered validation chains every handler runs
    before touching a table, and the two token-checking middlewares the routers
    put in front of their handlers. */
module Http {
  import opened Text

  /** A reply: `{ error: false, message, ... }` with status 200 and a payload, an
      error status with its message, or no JSON reply at all: the handler threw
      (a TypeError reading a property of an absent field or a missing row), or
      a middleware handed an error on. Express's default error handler then
      answers 500 for a throw in the handler itself; a throw inside a query
      callback, or a rejection of an async handler, stops the server with no
      reply. */
  datatype Response<+T> = Ok(message: string, data: T) | Fail(status: nat, message: string) | Thrown

  /** Why a handler stops before its database work. */
  datatype Halt = Reject(status: nat, message: string) | Throw

  function Respond<T>(h: Halt): (r: Response<T>)
    ensures !r.Ok?
  {
    match h
    case Reject(status, message) => Fail(status, message)
    case Throw => Thrown
  }

  /** `!x` is false of a body field: it is present and not the empty string. */
  predicate Truthy(f: Option<string>) {
    f.Some? && f.value != []
  }

  /** `String(x)` of a body field, as `RegExp.prototype.test` applies it: an absent
      field reads as "undefined". */
  function JsString(f: Option<string>): string {
    if f.Some? then f.value else "undefined"
  }

  // ---------------------------------------------------------------- validation chains

  /** One `if (!ok) return ...` of a handler: the condition, and how the handler
      stops when it does not hold. */
  datatype Step = Step(passes: bool, halt: Halt)

  /** A chain of checks run in order: the first one that fails decides the reply. */
  function FirstHalt(steps: seq<Step>): Option<Halt> {
    if steps == [] then None
    else if !steps[0].passes then Some(steps[0].halt)
    else FirstHalt(steps[1..])
  }

  ghost predicate EarliestFailure(steps: seq<Step>, i: int) {
    && 0 <= i < |steps|
    && !steps[i].passes
    && forall j :: 0 <= j < i ==> steps[j].passes
  }

  /** A chain lets a request through exactly when every check passes, and
      otherwise stops it with the earliest failing check's reply. */
  lemma {:induction false} FirstHaltIsEarliestFailure(steps: seq<Step>)
    ensures FirstHalt(steps) == None <==> forall i :: 0 <= i < |steps| ==> steps[i].passes
    ensures forall i :: EarliestFailure(steps, i) ==> FirstHalt(steps) == Some(steps[i].halt)
    ensures FirstHalt(steps).Some? ==> exists i :: EarliestFailure(steps, i) && FirstHalt(steps) == Some(steps[i].halt)
  {
    if steps != [] {
      FirstHaltIsEarliestFailure(steps[1..]);
      if steps[0].passes {
        forall i | EarliestFailure(steps, i)
          ensures FirstHalt(steps) == Some(steps[i].halt)
        {
          assert EarliestFailure(steps[1..], i - 1);
        }
        forall i | 0 <= i < |steps| - 1 && steps[1..][i].passes
          ensures steps[i + 1].passes
        {
        }
        if FirstHalt(steps).Some? {
          var i :| EarliestFailure(steps[1..], i) && FirstHalt(steps[1..]) == Some(steps[1..][i].halt);
          assert EarliestFailure(steps, i + 1);
        }
      } else {
        assert EarliestFailure(steps, 0);
        forall i | EarliestFailure(steps, i)
          ensures i == 0
        {
        }
      }
    }
  }

  /** A middleware's verdict first, then the handler's own chain. */
  function Guarded(gate: Option<Halt>, steps: seq<Step>): Option<Halt> {
    if gate.Some? then gate else FirstHalt(steps)
  }

  // ---------------------------------------------------------------- token gates

  /** `header.split(' ')[1]`: the word after the first space of an
      Authorization header, absent when the header has no space. */
  function HeaderToken(header: string): Option<string> {
    var parts := Split(header, ' ');
    if |parts| >= 2 then Some(parts[1]) else None
  }

  /** The usual header `Bearer <jwt>` yields the token. */
  lemma BearerToken(scheme: string, token: string)
    requires ' ' !in scheme && ' ' !in token
    ensures HeaderToken(scheme + " " + token) == Some(token)
  {
    SplitAfterJoin([scheme, token], ' ');
    assert Join([scheme, token], ' ') == scheme + " " + token by {
      assert [scheme, token][1..] == [token];
    }
  }

  /** `jwt.verify` succeeds: a token was given, it is not empty, and it is one
      the server signed and that has not expired (the set `accepted`). */
  predicate Verifies(token: Option<string>, accepted: set<string>) {
    token.Some? && token.value != [] && token.value in accepted
  }

  /** `verifyToken` of routes/barang_mentah.js, suppliers.js, umkm.js and
      profil_pembatik.js: no header is 403, a header whose token does not verify
      is 500. */
  function VerifyToken(header: Option<string>, accepted: set<string>): (r: Option<Halt>)
    ensures r.Some? ==> r.value.Reject? && r.value.status in {403, 500}
  {
    if !Truthy(header) then Some(Reject(403, "No token provided."))
    else if !Verifies(HeaderToken(header.value), accepted) then Some(Reject(500, "Failed to authenticate token."))
    else None
  }

  /** `authenticateToken` of routes/products.js and qr_codes.js: no token (no
      header, or nothing after its first space) is 401, a token that does not
      verify is 403. */
  function AuthenticateToken(header: Option<string>, accepted: set<string>): (r: Option<Halt>)
    ensures r.Some? ==> r.value.Reject? && r.value.status in {401, 403}
  {
    var token := if Truthy(header) then HeaderToken(header.value) else None;
    if token.None? || token.value == [] then Some(Reject(401, "Unauthorized"))
    else if !Verifies(token, accepted) then Some(Reject(403, "Forbidden"))
    else None
  }

  /** The two middlewares let exactly the same requests through; they differ only
      in the statuses of their refusals. */
  lemma GatesAgree(header: Option<string>, accepted: set<string>)
    ensures VerifyToken(header, accepted).None? <==> AuthenticateToken(header, accepted).None?
  {
  }

  /** On a `Bearer <jwt>` header both middlewares pass exactly the verified tokens,
      and refuse the others with 500 (verifyToken) and 403 or 401 (authenticateToken). */
  lemma {:induction false} GatesOnBearerHeader(scheme: string, token: string, accepted: set<string>)
    requires scheme != [] && ' ' !in scheme && ' ' !in token
    ensures VerifyToken(Some(scheme + " " + token), accepted)
      == if token != [] && token in accepted then None else Some(Reject(500, "Failed to authenticate token."))
    ensures AuthenticateToken(Some(scheme + " " + token), accepted)
      == if token == [] then Some(Reject(401, "Unauthorized"))
         else if token in accepted then None
         else Some(Reject(403, "Forbidden"))
  {
    BearerToken(scheme, token);
  }

  /** A header without a space carries no token: verifyToken answers 500 where
      authenticateToken answers 401. */
  lemma {:induction false} GatesOnHeaderWithoutSpace(header: string, accepted: set<string>)
    requires header != [] && ' ' !in header
    ensures VerifyToken(Some(header), accepted) == Some(Reject(500, "Failed to authenticate token."))
    ensures AuthenticateToken(Some(header), accepted) == Some(Reject(401, "Unauthorized"))
  {
    SplitAfterJoin([header], ' ');
  }
}
