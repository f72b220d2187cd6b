/**
 * The two request guards of the backend: `requireRole(...allowed)`, which answers 401, 404,
 * 403 or passes the request on with `req.user` set, and `getCurrentUser`, which always
 * passes the request on and sets `req.user` when it can.
 *
 * The identity provider's `getAuth(req).userId` is the parameter `userId` ("" when the
 * request carries no session); a failing database query is the parameter `dbError`.
 */
module Middleware {
  import opened Wrappers
  import opened Model
  import opened Database

  /** Either `next()` is called with `req.user` set to a stored user, or a response is sent. */
  datatype Outcome = Next(user: Id) | Stop(status: int, message: string)

  const NotAuthenticated: string := "Non authentifié"
  const UserNotFound: string := "Utilisateur non trouvé"
  const RoleRefused: string := "Accès refusé - rôle insuffisant"
  const RoleCheckFailed: string := "Erreur serveur lors de la vérification du rôle"

  /** `requireRole(...allowed)`: 401 without a session, then 404, then 403, in that order. */
  method RequireRole(db: Db, userId: string, allowed: seq<string>, dbError: bool) returns (o: Outcome)
    requires db.Valid()
    ensures userId == "" ==> o == Stop(401, NotAuthenticated)
    ensures userId != "" && dbError ==> o == Stop(500, RoleCheckFailed)
    ensures userId != "" && !dbError && !ClerkIdTaken(db.users, userId) ==> o == Stop(404, UserNotFound)
    ensures (userId != "" && !dbError && ClerkIdTaken(db.users, userId)) ==>
      (o == Stop(403, RoleRefused) <==> !HasAllowedRole(db.users, userId, allowed))
    ensures o.Next? <==> userId != "" && !dbError && HasAllowedRole(db.users, userId, allowed)
    ensures o.Next? ==> o.user in db.users && db.users[o.user].clerkId == userId && db.users[o.user].role in allowed
  {
    if userId == "" {
      return Stop(401, NotAuthenticated);
    }
    if dbError {
      return Stop(500, RoleCheckFailed);
    }
    var found := db.FindUserByClerkId(userId);
    if found.None? {
      return Stop(404, UserNotFound);
    }
    if db.users[found.value].role !in allowed {
      return Stop(403, RoleRefused);
    }
    return Next(found.value);
  }

  /** The user with this Clerk id exists and holds one of the allowed roles. */
  predicate HasAllowedRole(users: map<Id, User>, clerkId: string, allowed: seq<string>)
    ensures allowed == [] ==> !HasAllowedRole(users, clerkId, allowed)
    ensures HasAllowedRole(users, clerkId, allowed) ==> ClerkIdTaken(users, clerkId)
  {
    exists id :: id in users && users[id].clerkId == clerkId && users[id].role in allowed
  }

  /** Adding roles to the allow-list never turns an admitted request away. */
  lemma AllowListMonotone(users: map<Id, User>, clerkId: string, allowed: seq<string>, more: seq<string>)
    requires HasAllowedRole(users, clerkId, allowed)
    ensures HasAllowedRole(users, clerkId, allowed + more)
  {
    var id :| id in users && users[id].clerkId == clerkId && users[id].role in allowed;
    assert users[id].role in allowed + more;
  }

  /**
   * `getCurrentUser`: `next()` is always called; `req.user` is the user with this Clerk id
   * when there is a session and the query succeeds, and is left unset otherwise.
   */
  method GetCurrentUser(db: Db, userId: string, dbError: bool) returns (user: Option<Id>)
    requires db.Valid()
    ensures user.Some? ==> userId != "" && !dbError && user.value in db.users && db.users[user.value].clerkId == userId
    ensures user.None? <==> userId == "" || dbError || !ClerkIdTaken(db.users, userId)
  {
    if userId == "" || dbError {
      return None;
    }
    user := db.FindUserByClerkId(userId);
  }
}
