/**
  The role gate of the aircraft-record contract: a caller holds a role only
  when it claims that role in its `role` certificate attribute AND its
  organisation (MSP) is bound to that role.
 */
module Access {
  import opened Wrappers

  /** The caller as the contract sees it: its MSP id and its `role` attribute, if any. */
  datatype Identity = Identity(mspId: string, role: Option<string>)

  const Org1: string := "Org1MSP"
  const Org2: string := "Org2MSP"
  const Maintenance: string := "Maintenance"
  const Operator: string := "Operator"

  /** The fixed organisation-to-role binding: Org1MSP is trusted with Maintenance, Org2MSP with Operator. */
  predicate Bound(mspId: string, role: string)
  {
    (mspId == Org1 && role == Maintenance) || (mspId == Org2 && role == Operator)
  }

  /** Some required role is both claimed by the caller and bound to the caller's organisation. */
  ghost predicate Authorized(caller: Identity, roles: seq<string>)
  {
    exists r :: r in roles && caller.role == Some(r) && Bound(caller.mspId, r)
  }

  /**
    The source's loop: for each required role, first ask whether the `role`
    attribute equals it, then compare the organisation and the attribute
    value with the two fixed bindings; the first match returns true.
   */
  method HasRole(caller: Identity, roles: seq<string>) returns (granted: bool)
    ensures granted == Authorized(caller, roles)
  {
    for i := 0 to |roles|
      invariant forall j :: 0 <= j < i ==> !(caller.role == Some(roles[j]) && Bound(caller.mspId, roles[j]))
    {
      var roleName := roles[i];
      if caller.role == Some(roleName) {
        if caller.mspId == Org1 && caller.role == Some(Maintenance) {
          return true;
        }
        if caller.mspId == Org2 && caller.role == Some(Operator) {
          return true;
        }
      }
    }
    return false;
  }

  /** Access depends only on the caller's own claimed role: it must be required and bound to the caller's organisation. */
  lemma AuthorizedByOwnClaim(caller: Identity, roles: seq<string>)
    ensures Authorized(caller, roles) <==>
            caller.role.Some? && caller.role.value in roles && Bound(caller.mspId, caller.role.value)
  {
  }

  /** An empty list of required roles grants nothing. */
  lemma NoRolesNoAccess(caller: Identity)
    ensures !Authorized(caller, [])
  {
  }

  /** Claiming a role the organisation is not bound to grants nothing, whatever roles are required. */
  lemma SpoofedClaimDenied(caller: Identity, roles: seq<string>)
    requires caller.role.Some? && !Bound(caller.mspId, caller.role.value)
    ensures !Authorized(caller, roles)
  {
  }

  /** A caller from any organisation other than Org1MSP and Org2MSP is denied, whatever it claims. */
  lemma UnboundOrganisationDenied(caller: Identity, roles: seq<string>)
    requires caller.mspId != Org1 && caller.mspId != Org2
    ensures !Authorized(caller, roles)
  {
  }

  /** A caller with no `role` attribute is denied. */
  lemma NoClaimDenied(caller: Identity, roles: seq<string>)
    requires caller.role.None?
    ensures !Authorized(caller, roles)
  {
  }
}
