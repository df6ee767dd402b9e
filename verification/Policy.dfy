/** The per-service policy: which users a service lets in. */
module Policy {
  import opened Common
  import opened Strings

  datatype Service = Service(id: string, requireRole: Option<string>, enforceOrg: bool, defaultOrg: Option<string>,
                             maxAge: Option<nat>)

  /** Some comma-separated field, trimmed, is exactly `value`; a substring of a field is not enough. */
  ghost predicate HasField(csv: string, value: string) {
    exists f :: f in Split(csv, ',') && Trim(f) == value
  }

  method CsvHasExact(csv: string, value: string) returns (found: bool)
    ensures found <==> HasField(csv, value)
  {
    var fields := Split(csv, ',');
    for i := 0 to |fields|
      invariant forall f :: f in fields[..i] ==> Trim(f) != value
    {
      if Trim(fields[i]) == value {
        return true;
      }
    }
    assert fields[..|fields|] == fields;
    return false;
  }

  ghost predicate PolicyHolds(roles: string, orgs: string, svc: Service) {
    && (svc.requireRole.Some? && svc.requireRole.value != "" ==> HasField(roles, svc.requireRole.value))
    && (svc.enforceOrg && svc.defaultOrg.Some? ==> HasField(orgs, svc.defaultOrg.value))
  }

  /** A login is refused for want of a required role, or of the service's own organisation, and for nothing else. */
  method CheckPolicy(roles: string, orgs: string, svc: Service) returns (ok: bool)
    ensures ok <==> PolicyHolds(roles, orgs, svc)
    ensures !ok <==>
              || (svc.requireRole.Some? && svc.requireRole.value != "" && !HasField(roles, svc.requireRole.value))
              || (svc.enforceOrg && svc.defaultOrg.Some? && !HasField(orgs, svc.defaultOrg.value))
  {
    if svc.requireRole.Some? && svc.requireRole.value != "" {
      var has := CsvHasExact(roles, svc.requireRole.value);
      if !has { return false; }
    }
    if svc.enforceOrg && svc.defaultOrg.Some? {
      var has := CsvHasExact(orgs, svc.defaultOrg.value);
      if !has { return false; }
    }
    return true;
  }
}
