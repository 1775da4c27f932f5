/** The part every response object shares: the raw body it was built from
    and `isset`-style access to its top-level entries. */
module PartialResponses {
  import opened Wrappers
  import opened Php

  /** `get($name)`: the entry under `$name` when it is set, null otherwise. */
  function Get(body: Entries, name: string): (r: Value)
    ensures r != Null <==> IsSet(body, ArrayKey(name))
    ensures r != Null ==> (ArrayKey(name), r) in body
    ensures ArrayKey(name) !in Keys(body) ==> r == Null
  {
    LookupFound(body, ArrayKey(name));
    if !IsSet(body, ArrayKey(name)) then Null else Lookup(body, ArrayKey(name)).value
  }

  /** In a body with distinct keys, `get` returns the entry stored under the
      name whenever that entry is not null. */
  lemma GetEntry(body: Entries, name: string, i: nat)
    requires UniqueKeys(body) && i < |body| && body[i].0 == ArrayKey(name)
    ensures Get(body, name) == body[i].1
  {
    LookupUnique(body, i);
  }

  /** An entry holding null reads exactly like a missing entry. */
  lemma NullReadsAsMissing(body: Entries, name: string)
    ensures Get(Put(body, ArrayKey(name), Null), name) == Null
  {
    PutLookup(body, ArrayKey(name), Null, ArrayKey(name));
  }
}
