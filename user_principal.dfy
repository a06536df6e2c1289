/** The UserDetails built from a UserEntity: final fields, role normalised into one ROLE_ authority. */
module UserPrincipal {
  import opened Wrappers
  import opened Text
  import Users

  const RolePrefix: string := "ROLE_"

  /** The four final fields; role is never null after construction. */
  datatype Principal = Principal(id: Option<int>, email: Option<string>, password: Option<string>, role: string)
  {
    /** getUsername: the email. */
    function Username(): Option<string> { email }

    /** getPassword: the stored hash. */
    function Password(): Option<string> { password }

    function Authorities(): (r: seq<string>)
      ensures |r| == 1 && StartsWith(r[0], RolePrefix)
    {
      [Authority(role)]
    }

    predicate IsAccountNonExpired() { true }
    predicate IsAccountNonLocked() { true }
    predicate IsCredentialsNonExpired() { true }
    predicate IsEnabled() { true }
  }

  /** The constructor: the role is what UserEntity.setRole would have stored for the entity's role. */
  function FromEntity(user: Users.UserRow): (p: Principal)
    ensures p.id == user.id && p.Username() == user.email && p.Password() == user.password
    ensures p.role == Users.NormalizeRole(user.role)
  {
    Principal(user.id, user.email, user.password, if user.role.None? then "USER" else ToUpper(user.role.value))
  }

  /** getAuthorities' single entry: the upper-cased role, with "ROLE_" put in front unless already there. */
  function Authority(role: string): (a: string)
    ensures StartsWith(a, RolePrefix)
  {
    var normalized := ToUpper(role);
    if StartsWith(normalized, RolePrefix) then normalized else RolePrefix + normalized
  }

  /** Feeding an authority back in as a role gives the same authority: the prefix is never doubled. */
  lemma AuthorityIdempotent(role: string)
    ensures Authority(Authority(role)) == Authority(role)
  {
    var normalized := ToUpper(role);
    ToUpperIdempotent(role);
    if !StartsWith(normalized, RolePrefix) {
      ToUpperAppend(RolePrefix, normalized);
      assert ToUpper(RolePrefix) == RolePrefix;
    }
  }

  /** A principal holds the ADMIN authority exactly when its role is "admin" or "role_admin" in some letter case. */
  lemma AdminAuthority(role: string)
    ensures Authority(role) == "ROLE_ADMIN" <==> ToUpper(role) == "ADMIN" || ToUpper(role) == "ROLE_ADMIN"
  {
    var normalized := ToUpper(role);
    if normalized == "ADMIN" {
      assert normalized[0] != RolePrefix[0];
    } else if normalized == "ROLE_ADMIN" {
      assert normalized[..5] == RolePrefix;
    }
  }

  /** Whatever the entity's role, the principal is usable: every account-status flag is true. */
  lemma AccountAlwaysUsable(user: Users.UserRow)
    ensures var p := FromEntity(user);
      p.IsAccountNonExpired() && p.IsAccountNonLocked() && p.IsCredentialsNonExpired() && p.IsEnabled()
  {
  }
}
