/** The `RefreshToken` collection (refreshToken.js) and the store operations
    authController.js imports from utils/token.js: `generateRefreshToken`,
    `findRefreshTokenRecord` and `revokeRefreshToken`. */
module RefreshTokens {
  import opened Common
  import opened Crypto

  /** A session record. `tokenId`, `userId` and `expiresAt` are required;
      `replacedBy` names the record's successor once it has been rotated. */
  datatype RefreshRecord = RefreshRecord(
    tokenId: TokenId,
    userId: UserId,
    createdAt: int,
    expiresAt: int,
    revoked: bool,
    replacedBy: Option<TokenId>)

  /** A record as the schema creates it: `createdAt` defaults to the creation
      time, `revoked` to false and `replacedBy` to null. */
  function NewRecord(tokenId: TokenId, userId: UserId, expiresAt: int, now: int): (r: RefreshRecord)
    ensures r.tokenId == tokenId && r.userId == userId && r.expiresAt == expiresAt
    ensures r.createdAt == now && !r.revoked && r.replacedBy == None
  {
    RefreshRecord(tokenId, userId, now, expiresAt, false, None)
  }

  /** The payload of a refresh token: its record's id and nothing else. */
  function JtiClaims(tokenId: TokenId): Claims {
    Claims(None, None, None, None, Some(tokenId))
  }

  /** `revokeRefreshToken(tokenId, replacedBy)` on the map: the record, if
      there is one, becomes revoked and, when a successor is given, points at
      it; revoking an absent id changes nothing. */
  function Revoked(tokens: map<TokenId, RefreshRecord>, tokenId: Option<TokenId>, replacedBy: Option<TokenId>): (t: map<TokenId, RefreshRecord>)
    ensures t.Keys == tokens.Keys
    ensures tokenId.Some? && tokenId.value in tokens ==>
      t[tokenId.value].revoked
      && t[tokenId.value].replacedBy == (if replacedBy.Some? then replacedBy else tokens[tokenId.value].replacedBy)
      && t[tokenId.value] == tokens[tokenId.value].(revoked := t[tokenId.value].revoked, replacedBy := t[tokenId.value].replacedBy)
    ensures forall id :: id in tokens && Some(id) != tokenId ==> t[id] == tokens[id]
  {
    if tokenId.Some? && tokenId.value in tokens then
      var old_ := tokens[tokenId.value];
      tokens[tokenId.value := old_.(revoked := true, replacedBy := if replacedBy.Some? then replacedBy else old_.replacedBy)]
    else tokens
  }

  /** Revoking twice is revoking once. */
  lemma {:induction false} RevokeIdempotent(tokens: map<TokenId, RefreshRecord>, tokenId: Option<TokenId>)
    ensures Revoked(Revoked(tokens, tokenId, None), tokenId, None) == Revoked(tokens, tokenId, None)
  {
  }

  /** The refresh-token records, with the id the next `generateRefreshToken`
      hands out (a stand-in for a random, never-repeated identifier). */
  class SessionStore {
    var tokens: map<TokenId, RefreshRecord>
    var nextTokenId: TokenId

    /** `tokenId` is unique (each record is filed under its own id), ids are
        never reused, and a record with a successor is revoked and its
        successor is on file: a rotation chain never dangles. */
    ghost predicate Valid()
      reads this
      ensures Valid() ==> nextTokenId !in tokens
      ensures Valid() ==> forall id :: id in tokens && !tokens[id].revoked ==> tokens[id].replacedBy.None?
    {
      && (forall id :: id in tokens ==> tokens[id].tokenId == id && id < nextTokenId)
      && (forall id :: id in tokens && tokens[id].replacedBy.Some? ==>
            tokens[id].revoked && tokens[id].replacedBy.value in tokens)
    }

    constructor ()
      ensures Valid() && tokens == map[]
    {
      tokens := map[];
      nextTokenId := 0;
    }

    /** `findRefreshTokenRecord(tokenId)`: the record, or null. */
    method FindRefreshTokenRecord(tokenId: TokenId) returns (r: Option<RefreshRecord>)
      ensures r.Some? <==> tokenId in tokens
      ensures r.Some? ==> r.value == tokens[tokenId]
    {
      r := if tokenId in tokens then Some(tokens[tokenId]) else None;
    }

    /** `generateRefreshToken(userId)`: persists a fresh, unrevoked record
        expiring `RefreshLifetime` from now and returns the signed token that
        carries only its id. */
    method GenerateRefreshToken(userId: UserId, now: int) returns (jwt: Token, tokenId: TokenId, expiresAt: int)
      requires Valid()
      modifies this
      ensures Valid()
      ensures tokenId == old(nextTokenId) && tokenId !in old(tokens) && nextTokenId == tokenId + 1
      ensures expiresAt == now + RefreshLifetime
      ensures tokens == old(tokens)[tokenId := NewRecord(tokenId, userId, expiresAt, now)]
      ensures jwt == Sign(RefreshSecret, JtiClaims(tokenId), now, RefreshLifetime)
    {
      tokenId := nextTokenId;
      expiresAt := now + RefreshLifetime;
      tokens := tokens[tokenId := NewRecord(tokenId, userId, expiresAt, now)];
      nextTokenId := nextTokenId + 1;
      jwt := Sign(RefreshSecret, JtiClaims(tokenId), now, RefreshLifetime);
    }

    /** `revokeRefreshToken(tokenId, replacedBy)`; an absent id (including a
        payload without `jti`) is a no-op, never an error. */
    method RevokeRefreshToken(tokenId: Option<TokenId>, replacedBy: Option<TokenId>)
      requires Valid()
      requires replacedBy.Some? ==> replacedBy.value in tokens
      modifies this`tokens
      ensures Valid()
      ensures tokens == Revoked(old(tokens), tokenId, replacedBy)
    {
      tokens := Revoked(tokens, tokenId, replacedBy);
    }
  }
}
