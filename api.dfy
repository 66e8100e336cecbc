/**
 * The request handlers of chirps.go and users.go. The database is an
 * in-memory store held by `ApiConfig`; JWTs, password hashing and UUID
 * parsing are abstract collaborators (`Oracles`); fresh ids, fresh refresh
 * tokens and the clock are parameters. A handler's outcome is the status
 * it finally answers with, the body it writes, and its effect on the store.
 */
module Api {
  import opened Text
  import opened Wrappers
  import opened Auth

  /** A UUID. */
  type Uuid = nat

  /** The longest chirp body accepted, in bytes (`len` of a Go string). */
  const MaxChirpLength: nat := 140

  /** A stored chirp; the JSON `Chirp` of the responses has the same five fields. */
  datatype Chirp = Chirp(id: Uuid, createdAt: nat, updatedAt: nat, body: Bytes, userId: Uuid)

  /** A stored user. */
  datatype User = User(id: Uuid, email: Bytes, hashedPassword: Bytes, isChirpyRed: bool)

  /** A stored refresh token: the user it belongs to and whether `revoked_at` is set. */
  datatype RefreshToken = RefreshToken(userId: Uuid, revoked: bool)

  /** The JSON `User` of the responses (its timestamps are not modelled). */
  datatype UserJson = UserJson(id: Uuid, email: Bytes, token: Bytes, refreshToken: Bytes, isChirpyRed: bool)

  /** What a handler writes after its status line. */
  datatype Body =
    | NoBody
    | ErrorBody(error: Bytes)
    | PlainText(text: Bytes)
    | OneChirp(chirp: Chirp)
    | ChirpList(chirps: seq<Chirp>)
    | OneUser(user: UserJson)
    | AccessToken(token: Bytes)

  datatype Response = Response(status: nat, body: Body)

  /** Decoded JSON request bodies; a body the decoder rejects is `None`. */
  datatype ChirpParams = ChirpParams(body: Bytes, userId: Uuid)
  datatype EmailParams = EmailParams(email: Bytes, password: Bytes)
  datatype WebhookParams = WebhookParams(event: Bytes, userId: Bytes)

  /**
   * The collaborators whose code is not part of this model, as functions:
   * `ValidateJWT(token, secret)` (`None` for an error), `MakeJWT` of a user
   * for one hour, `HashPassword` (the digest and whether it succeeded),
   * `CheckPasswordHash(password, hash)` (`None` for an error) and `uuid.Parse`
   * (the value it returns, which on an error may be partly decoded, and
   * whether it succeeded).
   */
  datatype Oracles = Oracles(
    validateJwt: (Bytes, Bytes) -> Option<Uuid>,
    makeJwt: (Uuid, Bytes) -> Bytes,
    hashPassword: Bytes -> (Bytes, bool),
    checkPassword: (Bytes, Bytes) -> Option<bool>,
    parseUuid: Bytes -> (Uuid, bool))

  const TooLong: Bytes := Str("Chirp is too long")
  const WrongCredentials: Bytes := Str("Incorrect email or password")
  const UserUpgraded: Bytes := Str("user.upgraded")

  /** The user a request's bearer access token names: `GetBearerToken`, then `ValidateJWT`. */
  function Caller(o: Oracles, headers: Header, secret: Bytes): (r: Option<Uuid>)
    requires HasFirstValue(headers)
    ensures Authorization !in headers ==> r.None?
    ensures r.Some? ==> Count(headers[Authorization][0], Space) == 1
  {
    match GetBearerToken(headers)
    case Failure(_) => None
    case Success(token) => o.validateJwt(token, secret)
  }

  /** The id `uuid.Parse` returns when it reports no error. */
  function ParsedId(o: Oracles, text: Bytes): Option<Uuid>
  {
    var (id, ok) := o.parseUuid(text);
    if ok then Some(id) else None
  }

  /**
   * The id a `{chirpID}` path segment is looked up under: the parse error is
   * ignored, so whatever value `uuid.Parse` returned is used.
   */
  function ChirpIdOf(o: Oracles, pathValue: Bytes): (id: Uuid)
    ensures ParsedId(o, pathValue).Some? ==> id == ParsedId(o, pathValue).value
  {
    o.parseUuid(pathValue).0
  }

  predicate NoDuplicates(s: seq<Uuid>)
  {
    forall i, j | 0 <= i < j < |s| :: s[i] != s[j]
  }

  /** `s` without `x`, the others in their order (`RemoveAbsent`, `RemoveAt`). */
  function Remove(s: seq<Uuid>, x: Uuid): (r: seq<Uuid>)
    ensures forall y :: y in r <==> y in s && y != x
    ensures NoDuplicates(s) ==> NoDuplicates(r)
  {
    if s == [] then []
    else
      var rest := Remove(s[1..], x);
      if s[0] == x then rest
      else
        assert forall j | 0 <= j < |rest| :: rest[j] in s[1..];
        [s[0]] + rest
  }

  /** Removing an id that is not listed leaves the listing as it is. */
  lemma {:induction false} RemoveAbsent(s: seq<Uuid>, x: Uuid)
    requires x !in s
    ensures Remove(s, x) == s
  {
    if s != [] {
      RemoveAbsent(s[1..], x);
      assert s == [s[0]] + s[1..];
    }
  }

  /** In a listing without duplicates, removing the id at `k` cuts out exactly that slot. */
  lemma {:induction false} RemoveAt(s: seq<Uuid>, k: nat)
    requires NoDuplicates(s) && k < |s|
    ensures Remove(s, s[k]) == s[..k] + s[k + 1..]
  {
    var tail := s[1..];
    if k == 0 {
      forall j | 0 <= j < |tail|
        ensures tail[j] != s[0]
      {
        assert tail[j] == s[j + 1];
      }
      RemoveAbsent(tail, s[0]);
      assert s[..0] + s[1..] == tail;
    } else {
      assert NoDuplicates(tail) by {
        forall i, j | 0 <= i < j < |tail|
          ensures tail[i] != tail[j]
        {
          assert tail[i] == s[i + 1] && tail[j] == s[j + 1];
        }
      }
      assert tail[k - 1] == s[k];
      RemoveAt(tail, k - 1);
      assert s[..k] + s[k + 1..] == [s[0]] + (tail[..k - 1] + tail[k..]);
    }
  }

  /** Whether some user has this email. */
  predicate EmailTaken(users: map<Uuid, User>, email: Bytes)
  {
    exists id | id in users :: users[id].email == email
  }

  /** Whether some user other than `self` has this email. */
  predicate EmailTakenByOther(users: map<Uuid, User>, email: Bytes, self: Uuid)
  {
    exists id | id in users && id != self :: users[id].email == email
  }

  /** Every token revoked before is still stored and still revoked. */
  predicate RevocationsKept(before: map<Bytes, RefreshToken>, after: map<Bytes, RefreshToken>)
  {
    forall t | t in before && before[t].revoked :: t in after && after[t].revoked
  }

  /** The server configuration of main.go with the tables of its database. */
  class ApiConfig {
    const jwtSecret: Bytes
    const polkaKey: Bytes

    var chirps: map<Uuid, Chirp>
    /** The order `GetChirps` lists chirps in: the order they were created. */
    var chirpOrder: seq<Uuid>
    var users: map<Uuid, User>
    var refreshTokens: map<Bytes, RefreshToken>

    /**
     * Every row is stored under its own id, every chirp is listed once,
     * emails are unique, and chirps and refresh tokens belong to stored users.
     */
    ghost predicate Valid()
      reads this
    {
      && NoDuplicates(chirpOrder)
      && (forall id :: id in chirpOrder <==> id in chirps)
      && (forall id | id in chirps :: chirps[id].id == id && chirps[id].userId in users)
      && (forall id | id in users :: users[id].id == id)
      && (forall a, b | a in users && b in users && a != b :: users[a].email != users[b].email)
      && (forall t | t in refreshTokens :: refreshTokens[t].userId in users)
    }

    constructor (jwtSecret: Bytes, polkaKey: Bytes)
      ensures Valid()
      ensures this.jwtSecret == jwtSecret && this.polkaKey == polkaKey
      ensures chirps == map[] && chirpOrder == [] && users == map[] && refreshTokens == map[]
    {
      this.jwtSecret := jwtSecret;
      this.polkaKey := polkaKey;
      chirps, chirpOrder := map[], [];
      users, refreshTokens := map[], map[];
    }

    /**
     * POST /api/chirps (`jsonHandler`). A bearer-header failure answers 500,
     * an invalid token 401, an undecodable body 500, a body over 140 bytes
     * 400; otherwise the chirp is stored verbatim under the token's user
     * (the request's `user_id` is ignored) and answered with 201. The
     * insert fails (500) when that user is not stored or the id is taken.
     */
    method JsonHandler(o: Oracles, headers: Header, request: Option<ChirpParams>, newId: Uuid, now: nat)
      returns (resp: Response)
      requires Valid() && HasFirstValue(headers)
      modifies this
      ensures Valid()
      ensures users == old(users) && refreshTokens == old(refreshTokens)
      ensures GetBearerToken(headers).Failure? ==> resp == Response(500, NoBody)
      ensures GetBearerToken(headers).Success? && Caller(o, headers, jwtSecret).None? ==> resp == Response(401, NoBody)
      ensures Caller(o, headers, jwtSecret).Some? && request.None? ==> resp == Response(500, NoBody)
      ensures Caller(o, headers, jwtSecret).Some? && request.Some? && |request.value.body| > MaxChirpLength ==>
        resp == Response(400, ErrorBody(TooLong))
      ensures resp.status == 201 <==>
        && Caller(o, headers, jwtSecret).Some? && request.Some? && |request.value.body| <= MaxChirpLength
        && Caller(o, headers, jwtSecret).value in old(users) && newId !in old(chirps)
      ensures Caller(o, headers, jwtSecret).Some? && request.Some? && |request.value.body| <= MaxChirpLength
              && (Caller(o, headers, jwtSecret).value !in old(users) || newId in old(chirps)) ==>
        resp == Response(500, NoBody)
      ensures resp.status == 201 ==>
        && chirps == old(chirps)[newId := Chirp(newId, now, now, request.value.body, Caller(o, headers, jwtSecret).value)]
        && chirpOrder == old(chirpOrder) + [newId]
        && resp.body == OneChirp(chirps[newId])
      ensures resp.status != 201 ==> chirps == old(chirps) && chirpOrder == old(chirpOrder)
      ensures resp.status in {201, 400, 401, 500}
    {
      var token := GetBearerToken(headers);
      if token.Failure? {
        return Response(500, NoBody);
      }
      var userId := o.validateJwt(token.value, jwtSecret);
      if userId.None? {
        return Response(401, NoBody);
      }
      if request.None? {
        return Response(500, NoBody);
      }
      var params := request.value;
      if |params.body| > MaxChirpLength {
        resp := Response(400, ErrorBody(TooLong));
      } else {
        // CreateChirp(body, user): the foreign key and the primary key must hold.
        if userId.value !in users || newId in chirps {
          return Response(500, NoBody);
        }
        var chirp := Chirp(newId, now, now, params.body, userId.value);
        chirps := chirps[newId := chirp];
        chirpOrder := chirpOrder + [newId];
        resp := Response(201, OneChirp(Chirp(chirp.id, chirp.createdAt, chirp.updatedAt, chirp.body, chirp.userId)));
      }
    }

    /** GET /api/chirps (`handlerChirps`): every stored chirp, once each, in store order, copied field by field. */
    method HandlerChirps() returns (resp: Response)
      requires Valid()
      ensures resp.status == 200 && resp.body.ChirpList?
      ensures |resp.body.chirps| == |chirpOrder|
      ensures forall i | 0 <= i < |chirpOrder| :: resp.body.chirps[i] == chirps[chirpOrder[i]]
    {
      var res: seq<Chirp> := [];
      for i := 0 to |chirpOrder|
        invariant |res| == i
        invariant forall j | 0 <= j < i :: res[j] == chirps[chirpOrder[j]]
      {
        var chirp := chirps[chirpOrder[i]];
        res := res + [Chirp(chirp.id, chirp.createdAt, chirp.updatedAt, chirp.body, chirp.userId)];
      }
      resp := Response(200, ChirpList(res));
    }

    /** GET /api/chirps/{chirpID} (`handlerSingleChirp`): 200 with the chirp, or 404 when no chirp has that id. */
    method HandlerSingleChirp(o: Oracles, pathValue: Bytes) returns (resp: Response)
      requires Valid()
      ensures var id := ChirpIdOf(o, pathValue);
        && (resp.status == 200 <==> id in chirps)
        && (resp.status == 200 ==> resp.body == OneChirp(chirps[id]))
        && (resp.status != 200 ==> resp == Response(404, NoBody))
    {
      var (id, _) := o.parseUuid(pathValue);
      if id !in chirps {
        return Response(404, NoBody);
      }
      var chirp := chirps[id];
      resp := Response(200, OneChirp(Chirp(chirp.id, chirp.createdAt, chirp.updatedAt, chirp.body, chirp.userId)));
    }

    /**
     * DELETE /api/chirps/{chirpID} (`handlerDeleteChirps`). Checks run in
     * order: bearer header (401), token (401), existence (404), ownership
     * (403). Only a caller who owns the chirp removes it (204).
     */
    method HandlerDeleteChirps(o: Oracles, headers: Header, pathValue: Bytes) returns (resp: Response)
      requires Valid() && HasFirstValue(headers)
      modifies this
      ensures Valid()
      ensures users == old(users) && refreshTokens == old(refreshTokens)
      ensures var caller, id := Caller(o, headers, jwtSecret), ChirpIdOf(o, pathValue);
        && (caller.None? ==> resp == Response(401, NoBody))
        && (caller.Some? && id !in old(chirps) ==> resp == Response(404, NoBody))
        && (caller.Some? && id in old(chirps) && old(chirps)[id].userId != caller.value ==> resp == Response(403, NoBody))
        && (resp.status == 204 <==> caller.Some? && id in old(chirps) && old(chirps)[id].userId == caller.value)
        && (resp.status == 204 ==> chirps == old(chirps) - {id} && chirpOrder == Remove(old(chirpOrder), id))
      ensures resp.status != 204 ==> chirps == old(chirps) && chirpOrder == old(chirpOrder)
      ensures resp.body == NoBody
    {
      var token := GetBearerToken(headers);
      if token.Failure? {
        return Response(401, NoBody);
      }
      var userId := o.validateJwt(token.value, jwtSecret);
      if userId.None? {
        return Response(401, NoBody);
      }
      var (id, _) := o.parseUuid(pathValue);
      if id !in chirps {
        return Response(404, NoBody);
      }
      if userId.value != chirps[id].userId {
        return Response(403, NoBody);
      }
      chirps := chirps - {id};
      chirpOrder := Remove(chirpOrder, id);
      resp := Response(204, NoBody);
    }

    /**
     * POST /api/users (`userHandler`). An undecodable body answers 500;
     * `CreateUser` fails (500) on a taken email or id; otherwise the user is
     * stored with the hash of the password (a hashing error is ignored) and
     * answered with 201, empty tokens and `is_chirpy_red` false.
     */
    method UserHandler(o: Oracles, request: Option<EmailParams>, newId: Uuid) returns (resp: Response)
      requires Valid()
      modifies this
      ensures Valid()
      ensures chirps == old(chirps) && chirpOrder == old(chirpOrder) && refreshTokens == old(refreshTokens)
      ensures resp.status == 201 <==>
        request.Some? && newId !in old(users) && !EmailTaken(old(users), request.value.email)
      ensures resp.status == 201 ==>
        var email, hash := request.value.email, o.hashPassword(request.value.password).0;
        && users == old(users)[newId := User(newId, email, hash, false)]
        && resp.body == OneUser(UserJson(newId, email, [], [], false))
      ensures resp.status != 201 ==> resp == Response(500, NoBody) && users == old(users)
    {
      if request.None? {
        return Response(500, NoBody);
      }
      var params := request.value;
      // CreateUser(email): the email column is unique.
      if newId in users || EmailTaken(users, params.email) {
        return Response(500, NoBody);
      }
      users := users[newId := User(newId, params.email, [], false)];
      var (hash, _) := o.hashPassword(params.password);
      // UpdatePassword(hash, email, id)
      users := users[newId := users[newId].(email := params.email, hashedPassword := hash)];
      var user := users[newId];
      resp := Response(201, OneUser(UserJson(user.id, user.email, [], [], user.isChirpyRed)));
    }

    /**
     * PUT /api/users (`updateUserHandler`). A bearer-header or token failure
     * answers 401, an undecodable body or a hashing error 500. The email and
     * hash are set on the user the token names (not on the user the body's
     * email names); that update fails (500) if another user has the email,
     * and a token naming no stored user answers 500. The response echoes the
     * caller's own access token and an empty refresh token.
     */
    method UpdateUserHandler(o: Oracles, headers: Header, request: Option<EmailParams>) returns (resp: Response)
      requires Valid() && HasFirstValue(headers)
      modifies this
      ensures Valid()
      ensures chirps == old(chirps) && chirpOrder == old(chirpOrder) && refreshTokens == old(refreshTokens)
      ensures Caller(o, headers, jwtSecret).None? ==> resp == Response(401, NoBody)
      ensures resp.status == 200 <==>
        && Caller(o, headers, jwtSecret).Some? && request.Some?
        && o.hashPassword(request.value.password).1
        && Caller(o, headers, jwtSecret).value in old(users)
        && !EmailTakenByOther(old(users), request.value.email, Caller(o, headers, jwtSecret).value)
      ensures resp.status == 200 ==>
        var id, email, hash := Caller(o, headers, jwtSecret).value, request.value.email, o.hashPassword(request.value.password).0;
        && users == old(users)[id := old(users)[id].(email := email, hashedPassword := hash)]
        && resp.body == OneUser(UserJson(id, email, GetBearerToken(headers).value, [], old(users)[id].isChirpyRed))
      ensures resp.status != 200 ==> resp.status in {401, 500} && resp.body == NoBody && users == old(users)
      ensures Caller(o, headers, jwtSecret).Some? && resp.status != 200 ==> resp.status == 500
    {
      var token := GetBearerToken(headers);
      if token.Failure? {
        return Response(401, NoBody);
      }
      var userId := o.validateJwt(token.value, jwtSecret);
      if userId.None? {
        return Response(401, NoBody);
      }
      if request.None? {
        return Response(500, NoBody);
      }
      var params := request.value;
      var (hash, hashed) := o.hashPassword(params.password);
      if !hashed {
        return Response(500, NoBody);
      }
      var id := userId.value;
      // UpdatePassword(hash, email, id): no row to update is not an error; a taken email is.
      if id in users {
        if EmailTakenByOther(users, params.email, id) {
          return Response(500, NoBody);
        }
        users := users[id := users[id].(email := params.email, hashedPassword := hash)];
      }
      // GetUserByID(id)
      if id !in users {
        return Response(500, NoBody);
      }
      var user := users[id];
      resp := Response(200, OneUser(UserJson(user.id, user.email, token.value, [], user.isChirpyRed)));
    }

    /**
     * POST /api/login (`handlerLogin`). An undecodable body or an unknown
     * email answers 500, a password check error 500, a wrong password 401
     * with "Incorrect email or password". On a match the status is 200 at
     * once; one new refresh token is then recorded for the user and returned
     * with a fresh access token. A refresh token that is already stored
     * cannot be inserted: the status stays 200 (a second `WriteHeader` is
     * ignored) but nothing is recorded or returned.
     */
    method HandlerLogin(o: Oracles, request: Option<EmailParams>, newRefreshToken: Bytes) returns (resp: Response)
      requires Valid()
      modifies this
      ensures Valid()
      ensures chirps == old(chirps) && chirpOrder == old(chirpOrder) && users == old(users)
      ensures request.None? || !EmailTaken(old(users), request.value.email) ==> resp == Response(500, NoBody)
      ensures resp.status == 401 <==>
        request.Some? && exists id | id in old(users) && old(users)[id].email == request.value.email ::
          o.checkPassword(request.value.password, old(users)[id].hashedPassword) == Some(false)
      ensures resp.status == 401 ==> resp.body == PlainText(WrongCredentials)
      ensures resp.status == 500 ==> resp.body == NoBody
      ensures resp.status == 200 <==>
        request.Some? && exists id | id in old(users) && old(users)[id].email == request.value.email ::
          o.checkPassword(request.value.password, old(users)[id].hashedPassword) == Some(true)
      ensures resp.body.OneUser? <==> resp.status == 200 && newRefreshToken !in old(refreshTokens)
      ensures resp.body.OneUser? ==>
        var u := resp.body.user;
        && u.id in old(users) && old(users)[u.id].email == request.value.email
        && o.checkPassword(request.value.password, old(users)[u.id].hashedPassword) == Some(true)
        && u == UserJson(u.id, old(users)[u.id].email, o.makeJwt(u.id, jwtSecret), newRefreshToken, old(users)[u.id].isChirpyRed)
        && refreshTokens == old(refreshTokens)[newRefreshToken := RefreshToken(u.id, false)]
      ensures !resp.body.OneUser? ==> refreshTokens == old(refreshTokens)
      ensures resp.status == 200 && !resp.body.OneUser? ==> resp.body == NoBody
      ensures RevocationsKept(old(refreshTokens), refreshTokens)
      ensures resp.status in {200, 401, 500}
    {
      if request.None? {
        return Response(500, NoBody);
      }
      var params := request.value;
      // GetUserByEmail(email)
      if !EmailTaken(users, params.email) {
        return Response(500, NoBody);
      }
      var id :| id in users && users[id].email == params.email;
      var user := users[id];
      var matched := o.checkPassword(params.password, user.hashedPassword);
      if matched.None? {
        return Response(500, NoBody);
      }
      if !matched.value {
        resp := Response(401, PlainText(WrongCredentials));
      } else {
        resp := Response(200, NoBody);
        var token := o.makeJwt(user.id, jwtSecret);
        // CreateRefreshToken(token, user): the token is the primary key.
        if newRefreshToken in refreshTokens {
          return;
        }
        refreshTokens := refreshTokens[newRefreshToken := RefreshToken(user.id, false)];
        resp := Response(200, OneUser(UserJson(user.id, user.email, token, newRefreshToken, user.isChirpyRed)));
      }
    }

    /**
     * POST /api/refresh (`handlerRefresh`). A bearer-header failure answers
     * 500; an unknown or revoked refresh token 401; otherwise 200 with a new
     * access token for the token's user. Only the revoked flag is checked.
     */
    method HandlerRefresh(o: Oracles, headers: Header) returns (resp: Response)
      requires Valid() && HasFirstValue(headers)
      ensures GetBearerToken(headers).Failure? ==> resp == Response(500, NoBody)
      ensures GetBearerToken(headers).Success? ==>
        var token := GetBearerToken(headers).value;
        && (resp.status == 200 <==> token in refreshTokens && !refreshTokens[token].revoked)
        && (resp.status == 200 ==> resp.body == AccessToken(o.makeJwt(refreshTokens[token].userId, jwtSecret)))
        && (resp.status != 200 ==> resp == Response(401, NoBody))
    {
      var token := GetBearerToken(headers);
      if token.Failure? {
        return Response(500, NoBody);
      }
      if token.value !in refreshTokens || refreshTokens[token.value].revoked {
        return Response(401, NoBody);
      }
      var accessToken := o.makeJwt(refreshTokens[token.value].userId, jwtSecret);
      resp := Response(200, AccessToken(accessToken));
    }

    /**
     * POST /api/revoke (`handlerRevoke`). A bearer-header failure answers
     * 500; otherwise the token, if stored, is marked revoked and the answer
     * is 204.
     */
    method HandlerRevoke(headers: Header) returns (resp: Response)
      requires Valid() && HasFirstValue(headers)
      modifies this
      ensures Valid()
      ensures chirps == old(chirps) && chirpOrder == old(chirpOrder) && users == old(users)
      ensures RevocationsKept(old(refreshTokens), refreshTokens)
      ensures GetBearerToken(headers).Failure? ==> resp == Response(500, NoBody) && refreshTokens == old(refreshTokens)
      ensures GetBearerToken(headers).Success? ==>
        var token := GetBearerToken(headers).value;
        && resp == Response(204, NoBody)
        && refreshTokens == if token in old(refreshTokens)
                            then old(refreshTokens)[token := old(refreshTokens)[token].(revoked := true)]
                            else old(refreshTokens)
    {
      var token := GetBearerToken(headers);
      if token.Failure? {
        return Response(500, NoBody);
      }
      // RevokeToken(token): no row to update is not an error.
      if token.value in refreshTokens {
        refreshTokens := refreshTokens[token.value := refreshTokens[token.value].(revoked := true)];
      }
      resp := Response(204, NoBody);
    }

    /**
     * POST /api/polka/webhooks (`handlerUpgrade`). A missing or malformed
     * header, or a key other than the configured one, answers 401; an
     * undecodable body 500; an event other than "user.upgraded" 204 with no
     * change; an unparseable user id 500; an unknown user 404; otherwise the
     * user is marked `is_chirpy_red` and the answer is 204.
     */
    method HandlerUpgrade(o: Oracles, headers: Header, request: Option<WebhookParams>) returns (resp: Response)
      requires Valid() && HasFirstValue(headers)
      modifies this
      ensures Valid()
      ensures chirps == old(chirps) && chirpOrder == old(chirpOrder) && refreshTokens == old(refreshTokens)
      ensures resp.body == NoBody
      ensures GetAPIKey(headers).Failure? || GetAPIKey(headers).value != polkaKey ==> resp.status == 401
      ensures GetAPIKey(headers) == Success(polkaKey) ==>
        && (request.None? ==> resp.status == 500)
        && (request.Some? && request.value.event != UserUpgraded ==> resp.status == 204)
        && (request.Some? && request.value.event == UserUpgraded ==>
              var id := ParsedId(o, request.value.userId);
              && (id.None? ==> resp.status == 500)
              && (id.Some? && id.value !in old(users) ==> resp.status == 404)
              && (id.Some? && id.value in old(users) ==> resp.status == 204))
      ensures var id := if request.Some? then ParsedId(o, request.value.userId) else None;
        users == if GetAPIKey(headers) == Success(polkaKey) && request.Some? && request.value.event == UserUpgraded
                    && id.Some? && id.value in old(users)
                 then old(users)[id.value := old(users)[id.value].(isChirpyRed := true)]
                 else old(users)
    {
      var key := GetAPIKey(headers);
      if key.Failure? {
        return Response(401, NoBody);
      }
      if key.value != polkaKey {
        return Response(401, NoBody);
      }
      if request.None? {
        return Response(500, NoBody);
      }
      var params := request.value;
      if params.event != UserUpgraded {
        return Response(204, NoBody);
      }
      var (userId, parsed) := o.parseUuid(params.userId);
      if !parsed {
        return Response(500, NoBody);
      }
      // UpgradeUserByID(id): an error answers 404.
      if userId !in users {
        return Response(404, NoBody);
      }
      users := users[userId := users[userId].(isChirpyRed := true)];
      resp := Response(204, NoBody);
    }
  }

  /** Once revoke has answered 204 for a header, refresh with the same header answers 401. */
  method RevokeThenRefresh(api: ApiConfig, o: Oracles, headers: Header) returns (revoked: Response, refreshed: Response)
    requires api.Valid() && HasFirstValue(headers)
    modifies api
    ensures revoked.status == 204 ==> refreshed == Response(401, NoBody)
  {
    revoked := api.HandlerRevoke(headers);
    refreshed := api.HandlerRefresh(o, headers);
  }

  /** After the owner deletes a chirp (204), fetching it answers 404. */
  method DeleteThenGet(api: ApiConfig, o: Oracles, headers: Header, pathValue: Bytes)
    returns (deleted: Response, fetched: Response)
    requires api.Valid() && HasFirstValue(headers)
    modifies api
    ensures deleted.status == 204 ==> fetched == Response(404, NoBody)
  {
    deleted := api.HandlerDeleteChirps(o, headers, pathValue);
    fetched := api.HandlerSingleChirp(o, pathValue);
  }
}
