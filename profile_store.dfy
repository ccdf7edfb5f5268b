/**
 * The customer profile lookup. The store is a parameter: a map from
 * personal identifier to profile; its hard-coded contents are not modelled.
 */
module ProfileStore {
  import opened Wrappers
  import opened Dto

  /** The profile stored under `personalId`, or None when there is none. */
  function GetCustomerProfile(profiles: map<string, CustomerProfile>, personalId: string): (r: Option<CustomerProfile>)
    ensures r.None? <==> personalId !in profiles
    ensures r.Some? ==> personalId in profiles && r.value == profiles[personalId]
  {
    if personalId in profiles then Some(profiles[personalId]) else None
  }
}
