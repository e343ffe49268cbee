/** The stateless helpers of the traversal. */
module WibUtil {
  import opened Values

  /** std::any_cast against the caller's ordered type list, starting at position idx:
      the position of the first listed type that is the held type, or None when no
      listed type from idx on is the held type.  The caller then hands the payload
      to its visitor exactly when a position is found. */
  function TryVisitAny(allowlist: seq<TypeId>, held: TypeId, idx: nat): (r: Option<nat>)
    requires idx <= |allowlist|
    ensures r.Some? ==> idx <= r.value < |allowlist| && allowlist[r.value] == held
    ensures r.Some? ==> forall j | idx <= j < r.value :: allowlist[j] != held
    ensures r.None? <==> forall j | idx <= j < |allowlist| :: allowlist[j] != held
    decreases |allowlist| - idx
  {
    if idx == |allowlist| then None
    else if allowlist[idx] == held then Some(idx)
    else TryVisitAny(allowlist, held, idx + 1)
  }
}
