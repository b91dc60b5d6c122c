/**
 * The guard in front of event management: it lets a request through only
 * for the admin and organizer roles and refuses every other role.
 */
module RolesGuard {
  import opened Common
  import AuthService

  const NOT_ALLOWED := "Bạn không có quyền thực hiện hành động này"

  /** The guard's verdict for the role of the authenticated user: true, or Forbidden. */
  function CanActivate(role: string): (r: Result<bool>)
    ensures r.Ok? <==> role == AuthService.ADMIN || role == AuthService.ORGANIZER
    ensures r.Ok? ==> r.value
    ensures r.Err? ==> r.error == Forbidden(NOT_ALLOWED)
  {
    if role != AuthService.ADMIN && role != AuthService.ORGANIZER then Err(Forbidden(NOT_ALLOWED))
    else Ok(true)
  }

  /** A self-registered account passes the guard exactly when it signed up as an organizer. */
  lemma SignUpPassesGuardIffOrganizer(userType: Option<string>)
    ensures CanActivate(AuthService.StoredRole(userType)).Ok? <==> userType == Some(AuthService.ORGANIZER)
  {
  }
}
