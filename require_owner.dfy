/** The ownership guard of server/src/middleware/requireOwner.js, run after the bearer-token
    guard on the routes that change a listing. The listings table is reduced to what the
    guard reads, `sellers`: listing id to seller id, over every row whatever its `is_active`.
    `store` is None when the query fails. The route parameter arrives as `Number(req.params.id)`
    already taken: Some(n) for an integer n, None for anything `Number.isInteger` refuses. */
module OwnerGuard {
  import opened Wrappers
  import opened Api

  const BadIdMessage: string := "Invalid listing id."
  const NotFoundMessage: string := "Listing not found."
  const ForbiddenMessage: string := "Forbidden."
  const OwnerErrorMessage: string := "Server error verifying ownership."

  datatype Outcome = Next | Halt(reply: Reply)

  /** requireOwner: reading `req.user.id` with no user throws (500); then 400 for a
      non-integer id, 500 when the query fails, 404 for an unknown listing, 403 when the
      caller is not its seller, and otherwise the next handler. */
  function RequireOwner(user: Option<Identity>, listingId: Option<int>,
                        store: Option<map<int, int>>): (o: Outcome)
    ensures o.Next? <==> user.Some? && listingId.Some? && store.Some?
                         && listingId.value in store.value
                         && store.value[listingId.value] == user.value.id
    ensures user.None? ==> o == Halt(Reply(500, OwnerErrorMessage))
    ensures user.Some? && listingId.None? ==> o == Halt(Reply(400, BadIdMessage))
    ensures user.Some? && listingId.Some? && store.None? ==> o == Halt(Reply(500, OwnerErrorMessage))
    ensures o == Halt(Reply(404, NotFoundMessage)) <==>
              user.Some? && listingId.Some? && store.Some? && listingId.value !in store.value
    ensures o == Halt(Reply(403, ForbiddenMessage)) <==>
              user.Some? && listingId.Some? && store.Some? && listingId.value in store.value
              && store.value[listingId.value] != user.value.id
  {
    if user.None? then Halt(Reply(500, OwnerErrorMessage))
    else if listingId.None? then Halt(Reply(400, BadIdMessage))
    else if store.None? then Halt(Reply(500, OwnerErrorMessage))
    else if listingId.value !in store.value then Halt(Reply(404, NotFoundMessage))
    else if store.value[listingId.value] != user.value.id then Halt(Reply(403, ForbiddenMessage))
    else Next
  }

  /** Of two different users, at most one gets past the guard for a given listing. */
  lemma OneOwnerPerListing(a: Identity, b: Identity, listingId: Option<int>, sellers: map<int, int>)
    requires a.id != b.id
    ensures !(RequireOwner(Some(a), listingId, Some(sellers)).Next?
              && RequireOwner(Some(b), listingId, Some(sellers)).Next?)
  {
  }

  /** The guard's answer does not depend on rows other than the requested one: a 404 or a
      403 says nothing about any other listing. */
  lemma OwnerDecisionIsLocal(user: Identity, id: int, s1: map<int, int>, s2: map<int, int>)
    requires (id in s1) == (id in s2)
    requires id in s1 ==> s1[id] == s2[id]
    ensures RequireOwner(Some(user), Some(id), Some(s1)) == RequireOwner(Some(user), Some(id), Some(s2))
  {
  }
}
