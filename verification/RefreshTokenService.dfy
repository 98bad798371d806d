/** RefreshTokenService, AuthService and AuthController as objects; every method is proved against the functions
    of RefreshTokens, so that what RefreshTokenRuns proves of those holds of the code. */
module RefreshTokenServices {
  import opened Basics
  import opened RefreshTokens

  class RefreshTokenService {
    var rows: map<nat, Row>
    var nextId: nat
    var issued: set<Jwt>
    const bcrypt: Bcrypt<Jwt>
    const first: set<nat> -> nat

    constructor (bcrypt: Bcrypt<Jwt>, first: set<nat> -> nat)
      ensures Contents() == EMPTY_STORE && this.bcrypt == bcrypt && this.first == first
    {
      rows, nextId, issued := map[], 0, {};
      this.bcrypt, this.first := bcrypt, first;
    }

    ghost function Contents(): Store
      reads this
    {
      Store(rows, nextId, issued)
    }

    method ReserveTokenRow(userId: int, familyId: Uuid, expiresAt: int) returns (id: nat)
      modifies this`rows, this`nextId
      ensures id == old(nextId)
      ensures Contents() == InsertRow(old(Contents()), userId, familyId, expiresAt)
    {
      id := nextId;
      rows := rows[id := Row(userId, familyId, None, false, None, expiresAt)];
      nextId := nextId + 1;
    }

    method SetTokenHash(id: nat, refreshToken: Jwt, salt: nat)
      modifies this`rows
      ensures Contents() == SetHash(old(Contents()), id, bcrypt.hash(refreshToken, salt))
    {
      var hashToken := bcrypt.hash(refreshToken, salt);
      if id in rows {
        rows := rows[id := rows[id].(tokenHash := Some(hashToken))];
      }
    }

    method CreateRefreshToken(userId: int, familyId: Option<Uuid>, env: Env) returns (refreshToken: Jwt)
      modifies this
      ensures (Contents(), refreshToken) ==
              RefreshTokens.CreateRefreshToken(old(Contents()), userId, familyId, bcrypt, env)
    {
      var resolvedFamilyId := if familyId.Some? then familyId.value else env.uuid;
      var id := ReserveTokenRow(userId, resolvedFamilyId, env.expiresAt);
      refreshToken := Jwt(id, userId, resolvedFamilyId, env.exp);
      issued := issued + {refreshToken};
      SetTokenHash(id, refreshToken, env.salt);
    }

    method GetTokenRow(id: nat) returns (r: Result<Row>)
      ensures r == if id in rows then Success(rows[id]) else Failure(Unauthorized)
    {
      if id !in rows {
        return Failure(Unauthorized);
      }
      return Success(rows[id]);
    }

    method RevokeTokenFamily(familyId: Uuid, now: int)
      modifies this`rows
      ensures Contents() == RevokeFamily(old(Contents()), familyId, now)
    {
      rows := map id | id in rows ::
        if rows[id].familyId == familyId then rows[id].(revokedAt := Some(now)) else rows[id];
    }

    method IsRevokedToken(familyId: Uuid) returns (revoked: bool)
      ensures revoked == IsRevoked(Contents(), familyId, first)
    {
      var result := set id | id in rows && rows[id].familyId == familyId;
      assert result == FamilyIds(Contents(), familyId);
      if result == {} {
        return false;
      }
      var id := first(result);
      return id in rows && rows[id].revokedAt.Some?;
    }

    method DeleteToken(familyId: Uuid)
      modifies this`rows
      ensures Contents() == DeleteFamily(old(Contents()), familyId)
    {
      rows := map id | id in rows && rows[id].familyId != familyId :: rows[id];
    }

    method MarkRefreshTokenAsUsed(id: nat)
      modifies this`rows
      ensures Contents() == MarkUsed(old(Contents()), id)
    {
      if id in rows {
        rows := rows[id := rows[id].(used := true)];
      }
    }

    /** jwtService.verify */
    method VerifyJwt(refreshToken: Jwt, now: int) returns (ok: bool)
      ensures ok == Verifies(Contents(), refreshToken, now)
    {
      ok := refreshToken in issued && now / 1000 < refreshToken.exp;
    }

    method ValidateRefreshToken(refreshToken: Jwt, now: int) returns (r: Result<Grant>)
      modifies this`rows
      ensures (Contents(), r) == Validate(old(Contents()), refreshToken, bcrypt, first, now)
    {
      var verified := VerifyJwt(refreshToken, now);
      if !verified {
        return Failure(Unauthorized);
      }
      var found := GetTokenRow(refreshToken.id);
      if found.Failure? {
        return Failure(found.error);
      }
      var tokenRow := found.value;
      if tokenRow.userId != refreshToken.userId || tokenRow.familyId != refreshToken.familyId {
        return Failure(Unauthorized);
      }
      if tokenRow.tokenHash.None? {
        return Failure(Internal);
      }
      if !bcrypt.compare(refreshToken, tokenRow.tokenHash.value) {
        return Failure(Unauthorized);
      }
      var revoked := IsRevokedToken(refreshToken.familyId);
      if revoked {
        return Failure(Unauthorized);
      }
      if tokenRow.expiresAt < now {
        return Failure(Unauthorized);
      }
      if tokenRow.used {
        RevokeTokenFamily(refreshToken.familyId, now);
        return Failure(Unauthorized);
      }
      MarkRefreshTokenAsUsed(refreshToken.id);
      return Success(Grant(refreshToken.userId, refreshToken.familyId));
    }
  }

  class AuthService {
    const refreshTokenService: RefreshTokenService

    constructor (refreshTokenService: RefreshTokenService)
      ensures this.refreshTokenService == refreshTokenService
    {
      this.refreshTokenService := refreshTokenService;
    }

    method CreateTokens(userId: int, familyId: Option<Uuid>, env: Env) returns (refreshToken: Jwt)
      modifies refreshTokenService
      ensures (refreshTokenService.Contents(), refreshToken) ==
              RefreshTokens.CreateRefreshToken(old(refreshTokenService.Contents()), userId, familyId,
                                               refreshTokenService.bcrypt, env)
    {
      refreshToken := refreshTokenService.CreateRefreshToken(userId, familyId, env);
    }

    method Logout(refreshToken: Jwt, env: Env) returns (r: Result<()>)
      modifies refreshTokenService
      ensures (refreshTokenService.Contents(), if r.Success? then LoggedOut else Refused(r.error)) ==
              Serve(old(refreshTokenService.Contents()), Request.Logout(Some(refreshToken)),
                    refreshTokenService.bcrypt, refreshTokenService.first, env)
    {
      var verified := refreshTokenService.VerifyJwt(refreshToken, env.now);
      if !verified {
        return Failure(Unauthorized);
      }
      refreshTokenService.DeleteToken(refreshToken.familyId);
      return Success(());
    }
  }

  class AuthController {
    const authService: AuthService
    const refreshTokenService: RefreshTokenService

    constructor (authService: AuthService, refreshTokenService: RefreshTokenService)
      ensures this.authService == authService && this.refreshTokenService == refreshTokenService
    {
      this.authService, this.refreshTokenService := authService, refreshTokenService;
    }

    method Refresh(cookie: Option<Jwt>, env: Env) returns (reply: Reply)
      requires authService.refreshTokenService == refreshTokenService
      modifies refreshTokenService
      ensures (refreshTokenService.Contents(), reply) ==
              Serve(old(refreshTokenService.Contents()), Request.Refresh(cookie),
                    refreshTokenService.bcrypt, refreshTokenService.first, env)
    {
      if cookie.None? {
        return Refused(Unauthorized);
      }
      var grant := refreshTokenService.ValidateRefreshToken(cookie.value, env.now);
      if grant.Failure? {
        return Refused(grant.error);
      }
      var refreshToken := authService.CreateTokens(grant.value.userId, Some(grant.value.familyId), env);
      return Issued(refreshToken);
    }

    method Logout(cookie: Option<Jwt>, env: Env) returns (reply: Reply)
      requires authService.refreshTokenService == refreshTokenService
      modifies refreshTokenService
      ensures (refreshTokenService.Contents(), reply) ==
              Serve(old(refreshTokenService.Contents()), Request.Logout(cookie),
                    refreshTokenService.bcrypt, refreshTokenService.first, env)
    {
      if cookie.None? {
        return Refused(Unauthorized);
      }
      var r := authService.Logout(cookie.value, env);
      return if r.Success? then LoggedOut else Refused(r.error);
    }
  }
}
