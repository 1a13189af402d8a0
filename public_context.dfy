/** The identity guard run before every public query and mutation. */
module PublicContext {
  import opened Wrappers
  import opened Schema

  /** What the identity provider asserts about the caller. `organizations`
      lists the entries of the identity's organizations object (id, role) in
      their enumeration order. */
  datatype Identity = Identity(
    subject: string,
    email: Option<string>,
    organizations: seq<(string, string)>)

  datatype Organization = Organization(id: string, role: string)

  /** The identity a handler sees as `ctx.identity`. */
  datatype Caller = Caller(identity: Identity, email: string, organization: Organization)

  /** The explicit user record the workflows carry instead of an identity. */
  datatype User = User(email: string, organizationId: string)

  /** `requireAuth`: no identity, then no organization entry, then no email. */
  function RequireAuth(identity: Option<Identity>): (r: Result<Caller, Error>)
    ensures identity.None? ==> r == Err(NotSignedIn)
    ensures identity.Some? && identity.value.organizations == [] ==> r == Err(NoOrganization)
    ensures identity.Some? && identity.value.organizations != [] && identity.value.email.None? ==>
              r == Err(NoEmail)
    ensures r.Ok? <==> identity.Some? && identity.value.organizations != [] && identity.value.email.Some?
    ensures r.Ok? ==> r.value.identity == identity.value
    ensures r.Ok? ==> r.value.email == identity.value.email.value
    ensures r.Ok? ==> r.value.organization.id == identity.value.organizations[0].0
    ensures r.Ok? ==> r.value.organization.role == identity.value.organizations[0].1
  {
    match identity
    case None => Err(NotSignedIn)
    case Some(id) =>
      if id.organizations == [] then Err(NoOrganization)
      else
        var (orgId, role) := id.organizations[0];
        match id.email
        case None => Err(NoEmail)
        case Some(email) => Ok(Caller(id, email, Organization(orgId, role)))
  }

  /** The `user` record `sendMessage` and `createExperiments` pass to their workflow. */
  function UserOf(c: Caller): (u: User)
    ensures u.email == c.email && u.organizationId == c.organization.id
  {
    User(c.email, c.organization.id)
  }
}
