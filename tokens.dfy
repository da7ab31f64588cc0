/*
 * The `auth_tokens` table (backend/accounts/models_token.py): one row per
 * issued JWT, keyed here by its SHA-256 digest, which the table declares
 * unique. A row may point at the refresh-token row it was derived from.
 * Time is an integer number of seconds.
 */
module TokenStore {
  import opened Common

  type UserId = nat

  /** Hex digest of the raw token; the unique `token_hash` column. */
  type TokenHash = string

  datatype TokenType = Access | Refresh

  datatype TokenRecord = TokenRecord(
    user: UserId,
    tokenType: TokenType,
    jti: string,
    expiresAt: int,
    revokedAt: Option<int>,
    isRevoked: bool,
    refreshToken: Option<TokenHash>)  // parent row, for tokens derived from a refresh token

  type Table = map<TokenHash, TokenRecord>

  const SecondsPerDay := 86400

  /** `AuthToken.is_expired`: strictly past the expiry instant. */
  predicate IsExpired(t: TokenRecord, now: int)
  {
    now > t.expiresAt
  }

  /** `AuthToken.is_valid`. */
  predicate IsValid(t: TokenRecord, now: int)
  {
    !t.isRevoked && !IsExpired(t, now)
  }

  /** Expiry is strict: an unrevoked token is still valid at its expiry instant and not one second later. */
  lemma ValidThroughExpiryInstant(t: TokenRecord)
    requires !t.isRevoked
    ensures IsValid(t, t.expiresAt) && !IsValid(t, t.expiresAt + 1)
    ensures forall now :: IsValid(t, now) <==> now <= t.expiresAt
  {
  }

  /** The audit invariant: `revoked_at` is set exactly on revoked rows. */
  predicate RevocationConsistent(rows: Table)
  {
    forall h | h in rows :: rows[h].revokedAt.Some? <==> rows[h].isRevoked
  }

  function MarkRevoked(t: TokenRecord, at: int): TokenRecord
  {
    t.(isRevoked := true, revokedAt := Some(at))
  }

  /** A not-yet-revoked row whose `refresh_token` link points at `parent`. */
  predicate IsLiveChild(t: TokenRecord, parent: TokenHash)
  {
    t.refreshToken == Some(parent) && !t.isRevoked
  }

  /**
   * The table after `AuthToken.revoke` on row `h`: the row itself is stamped
   * with the first clock reading and, for a refresh token, the bulk update
   * stamps its live children with the second reading.
   */
  function RevokeRows(rows: Table, h: TokenHash, revokedAt: int, childrenAt: int): (r: Table)
    requires h in rows
    ensures r.Keys == rows.Keys
    ensures rows[h].isRevoked ==> r == rows
    ensures !rows[h].isRevoked ==> r[h] == MarkRevoked(rows[h], revokedAt)
    ensures !rows[h].isRevoked && rows[h].tokenType == Refresh ==>
      forall k | k in r && r[k].refreshToken == Some(h) :: r[k].isRevoked
    ensures !rows[h].isRevoked && rows[h].tokenType == Refresh ==>
      forall k | k in rows && k != h && IsLiveChild(rows[k], h) :: r[k] == MarkRevoked(rows[k], childrenAt)
    ensures rows[h].tokenType == Access ==> forall k | k in rows && k != h :: r[k] == rows[k]
    ensures forall k | k in rows && k != h && !IsLiveChild(rows[k], h) :: r[k] == rows[k]
    ensures RevocationConsistent(rows) ==> RevocationConsistent(r)
  {
    if rows[h].isRevoked then rows
    else
      var saved := rows[h := MarkRevoked(rows[h], revokedAt)];
      if rows[h].tokenType == Refresh then
        map k | k in saved :: if IsLiveChild(saved[k], h) then MarkRevoked(saved[k], childrenAt) else saved[k]
      else saved
  }

  /** Revoking twice is revoking once: the second call finds the row revoked and changes nothing. */
  lemma {:induction false} RevokeIdempotent(rows: Table, h: TokenHash, a1: int, a2: int, b1: int, b2: int)
    requires h in rows
    ensures RevokeRows(RevokeRows(rows, h, a1, a2), h, b1, b2) == RevokeRows(rows, h, a1, a2)
  {
    var once := RevokeRows(rows, h, a1, a2);
    assert once[h].isRevoked;
  }

  /** The table after `AuthToken.revoke_all_user_tokens(user)` at clock reading `at`. */
  function RevokeAllRows(rows: Table, user: UserId, at: int): (r: Table)
    ensures r.Keys == rows.Keys
    ensures forall k | k in r && r[k].user == user :: r[k].isRevoked
    ensures forall k | k in rows && rows[k].user == user && !rows[k].isRevoked :: r[k] == MarkRevoked(rows[k], at)
    ensures forall k | k in rows && (rows[k].user != user || rows[k].isRevoked) :: r[k] == rows[k]
    ensures RevocationConsistent(rows) ==> RevocationConsistent(r)
  {
    map k | k in rows :: if rows[k].user == user && !rows[k].isRevoked then MarkRevoked(rows[k], at) else rows[k]
  }

  /** The retention filter `Q(expires_at__lt=cutoff) | Q(revoked_at__lt=cutoff)`; a NULL `revoked_at` never matches. */
  predicate PurgeMatches(t: TokenRecord, cutoff: int)
  {
    t.expiresAt < cutoff || (t.revokedAt.Some? && t.revokedAt.value < cutoff)
  }

  function Cutoff(now: int, daysToKeep: int): int
  {
    now - daysToKeep * SecondsPerDay
  }

  /** With a non-negative retention period, a never-revoked row that has not expired is not matched. */
  lemma LiveRowNotMatched(t: TokenRecord, now: int, daysToKeep: int)
    requires daysToKeep >= 0
    requires t.revokedAt.None? && t.expiresAt >= now
    ensures !PurgeMatches(t, Cutoff(now, daysToKeep))
  {
  }

  predicate ParentIn(t: TokenRecord, s: set<TokenHash>)
  {
    t.refreshToken.Some? && t.refreshToken.value in s
  }

  /** `s` is closed under the `on_delete=CASCADE` of the `refresh_token` link. */
  ghost predicate CascadeClosed(rows: Table, s: set<TokenHash>)
  {
    forall k | k in rows && ParentIn(rows[k], s) :: k in s
  }

  /** `AuthToken.get_user_active_sessions`: the user's unrevoked refresh rows expiring after `now`. */
  function ActiveSessions(rows: Table, user: UserId, now: int): (r: set<TokenHash>)
    ensures r <= rows.Keys
    ensures forall k | k in r :: rows[k].user == user && rows[k].tokenType == Refresh && IsValid(rows[k], now)
  {
    set k | k in rows && rows[k].user == user && rows[k].tokenType == Refresh && !rows[k].isRevoked && rows[k].expiresAt > now
  }

  /**
   * The session listing uses `expires_at > now` while `is_valid` allows
   * `now == expires_at`: at that instant a refresh token is valid but not listed.
   */
  lemma ExpiryInstantSessionUnlisted(rows: Table, h: TokenHash)
    requires h in rows && rows[h].tokenType == Refresh && !rows[h].isRevoked
    ensures IsValid(rows[h], rows[h].expiresAt)
    ensures h !in ActiveSessions(rows, rows[h].user, rows[h].expiresAt)
  {
  }

  /** Every valid refresh row of the user that expires after `now` is listed. */
  lemma ValidSessionListed(rows: Table, h: TokenHash, now: int)
    requires h in rows && rows[h].tokenType == Refresh && IsValid(rows[h], now) && now < rows[h].expiresAt
    ensures h in ActiveSessions(rows, rows[h].user, now)
  {
  }

  class AuthTokenTable {
    var rows: Table

    constructor (initial: Table)
      ensures rows == initial
    {
      rows := initial;
    }

    /**
     * `AuthToken.revoke` on the row `h`. The two clock readings are the two
     * `timezone.now()` calls: one for the row, one for the bulk update of its children.
     */
    method Revoke(h: TokenHash, revokedAt: int, childrenAt: int)
      requires h in rows
      modifies this
      ensures rows == RevokeRows(old(rows), h, revokedAt, childrenAt)
    {
      var self := rows[h];
      if !self.isRevoked {
        self := self.(isRevoked := true, revokedAt := Some(revokedAt));
        rows := rows[h := self];
        if self.tokenType == Refresh {
          rows := map k | k in rows ::
            if rows[k].refreshToken == Some(h) && !rows[k].isRevoked
            then rows[k].(isRevoked := true, revokedAt := Some(childrenAt))
            else rows[k];
        }
      }
    }

    /** `AuthToken.revoke_all_user_tokens`: one bulk update over the user's unrevoked rows. */
    method RevokeAllUserTokens(user: UserId, now: int)
      modifies this
      ensures rows == RevokeAllRows(old(rows), user, now)
    {
      rows := map k | k in rows ::
        if rows[k].user == user && !rows[k].isRevoked
        then rows[k].(isRevoked := true, revokedAt := Some(now))
        else rows[k];
    }

    /**
     * `AuthToken.cleanup_expired_tokens`: deletes the rows the retention
     * filter matches together with everything the self-referencing cascade
     * reaches from them, and returns how many rows went (Django counts the
     * cascaded rows too). `removed` is the smallest cascade-closed set
     * containing the matched rows.
     */
    method CleanupExpiredTokens(daysToKeep: int, now: int) returns (deleted: nat, ghost removed: set<TokenHash>)
      modifies this
      ensures removed <= old(rows).Keys
      ensures forall k | k in old(rows) && PurgeMatches(old(rows)[k], Cutoff(now, daysToKeep)) :: k in removed
      ensures CascadeClosed(old(rows), removed)
      ensures forall k | k in removed :: PurgeMatches(old(rows)[k], Cutoff(now, daysToKeep)) || ParentIn(old(rows)[k], removed)
      ensures forall s: set<TokenHash> | CascadeClosed(old(rows), s) &&
        (forall k | k in old(rows) && PurgeMatches(old(rows)[k], Cutoff(now, daysToKeep)) :: k in s) :: removed <= s
      ensures rows == map k | k in old(rows) && k !in removed :: old(rows)[k]
      ensures deleted == |removed|
    {
      var cutoff := now - daysToKeep * SecondsPerDay;
      assert cutoff == Cutoff(now, daysToKeep);
      var doomed := set k | k in rows && (rows[k].expiresAt < cutoff || (rows[k].revokedAt.Some? && rows[k].revokedAt.value < cutoff));
      assert forall k | k in rows :: k in doomed <==> PurgeMatches(rows[k], cutoff);
      ghost var matched := doomed;
      while exists k :: k in rows && k !in doomed && ParentIn(rows[k], doomed)
        invariant matched <= doomed <= rows.Keys
        invariant forall k | k in doomed :: PurgeMatches(rows[k], cutoff) || ParentIn(rows[k], doomed)
        invariant forall s: set<TokenHash> | CascadeClosed(rows, s) && matched <= s :: doomed <= s
        decreases |rows.Keys - doomed|
      {
        var k :| k in rows && k !in doomed && ParentIn(rows[k], doomed);
        assert rows.Keys - (doomed + {k}) < rows.Keys - doomed;
        ghost var before := doomed;
        doomed := doomed + {k};
        forall j | j in doomed
          ensures PurgeMatches(rows[j], cutoff) || ParentIn(rows[j], doomed)
        {
          if j != k && !PurgeMatches(rows[j], cutoff) {
            assert ParentIn(rows[j], before);
          }
        }
        forall s: set<TokenHash> | CascadeClosed(rows, s) && matched <= s
          ensures doomed <= s
        {
          assert before <= s;
          assert ParentIn(rows[k], s);
        }
      }
      deleted := |doomed|;
      removed := doomed;
      rows := map k | k in rows && k !in doomed :: rows[k];
    }
  }
}
