/** Records shared by the stores and the service (entity/token.go). Times are integers on one
    scale; a nil time is `None`. */
module Entities {

  datatype Option<+T> = None | Some(value: T)

  /** A persisted refresh token; `parent` is the hash of the family's root, "" for a root. */
  datatype RefreshToken = RefreshToken(
    hash: string, userId: string, parent: string, expiresAt: int,
    revoked: bool, rotatedAt: Option<int>, endedAt: Option<int>)

  /** What a reuse decision needs to know about a family. */
  datatype RefreshFamily = RefreshFamily(sessionEnded: bool, lastRotatedAt: Option<int>)

  /** The hash every token of rt's family uses as parent. */
  function FamilyRoot(rt: RefreshToken): string {
    if rt.parent == "" then rt.hash else rt.parent
  }

  /** Membership as the stores query it: the root itself or a token whose parent it is. */
  predicate InFamily(rt: RefreshToken, root: string) {
    rt.hash == root || rt.parent == root
  }

  /** A token as the service saves it: live, never rotated, session not ended. */
  predicate IsNew(rt: RefreshToken) {
    !rt.revoked && rt.rotatedAt.None? && rt.endedAt.None?
  }

  datatype User = User(id: string, email: string, roles: seq<string>)

  /** A personal access token; one without `expiresAt` never expires. */
  datatype Pat = Pat(id: string, hash: string, userId: string, expiresAt: Option<int>, lastUsedAt: Option<int>)

  datatype OAuthIdentity = OAuthIdentity(id: string, userId: string, provider: string, externalId: string, email: string)

  datatype WalletIdentity = WalletIdentity(id: string, userId: string, chain: string, address: string)

  /** A single-use nonce: for a wallet, `chain` and `address` are set; for OAuth, `bindingHash`. */
  datatype Challenge = Challenge(
    nonce: string, message: string, chain: string, address: string,
    codeVerifier: string, oauthNonce: string, bindingHash: string, expiresAt: int)
}
