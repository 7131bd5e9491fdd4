/**
 * nameMap and getOwner: a cache from numeric owner ids to names, filled on
 * first use by a lookup function. getUser and getGroup each pass one fixed
 * lookup closure for their map, so a NameMap holds its lookup as a constant.
 */
module Owners {
  import opened Wrappers
  import opened Types
  import Decimal

  /** fmt.Sprint of an id: the decimal text handed to the lookup. */
  function Sprint(id: uint32): string {
    Decimal.NatToString(id as nat)
  }

  /** The closure of getUser and getGroup: the name found, or "" when the lookup fails. */
  function NameOrEmpty(found: Option<string>): string {
    if found.Some? then found.value else ""
  }

  /** The lookup getUser or getGroup passes, built from user.LookupId or user.LookupGroupId. */
  function NameLookup(lookupId: string -> Option<string>): string -> string {
    id => NameOrEmpty(lookupId(id))
  }

  /** A lookup that fails names the id "", one that succeeds gives the name found. */
  lemma NameLookupFailsToEmpty(lookupId: string -> Option<string>, id: string)
    ensures lookupId(id).None? ==> NameLookup(lookupId)(id) == ""
    ensures lookupId(id).Some? ==> NameLookup(lookupId)(id) == lookupId(id).value
  {
  }

  /** The name an uncached getOwner would give: "" for a nil id, otherwise the lookup of its decimal text. */
  function OwnerName(id: Option<uint32>, lookup: string -> string): string {
    if id.None? then "" else lookup(Sprint(id.value))
  }

  /** The lookup a getOwner call makes on a cache holding exactly `ids`: one for a new id, none otherwise. */
  function Missed(id: Option<uint32>, ids: set<uint32>): seq<uint32> {
    if id.Some? && id.value !in ids then [id.value] else []
  }

  /** The id set a record's owner adds to the ids seen so far. */
  function IdSet(id: Option<uint32>): set<uint32> {
    if id.Some? then {id.value} else {}
  }

  /** No id occurs twice in `s`. */
  ghost predicate NoDuplicates(s: seq<uint32>) {
    forall i, j :: 0 <= i < j < |s| ==> s[i] != s[j]
  }

  class NameMap {
    const lookup: string -> string
    var names: map<uint32, string>
    /** The ids the cache holds a name for. */
    ghost var keys: set<uint32>
    /** The ids `lookup` has been called for, in call order. */
    ghost var log: seq<uint32>

    /**
     * `keys` are the cached ids, and each cached name is what the lookup
     * returned for its id. The lookup has been called exactly for the cached
     * ids, and never twice for the same id.
     */
    ghost predicate Valid()
      reads this
    {
      && (forall id :: id in names <==> id in keys)
      && (forall id :: id in names ==> names[id] == lookup(Sprint(id)))
      && (forall id :: id in log <==> id in keys)
      && NoDuplicates(log)
    }

    /** nameMap{}: an empty cache. */
    constructor (lookup: string -> string)
      ensures Valid() && this.lookup == lookup
      ensures names == map[] && keys == {} && log == []
    {
      this.lookup := lookup;
      names := map[];
      keys := {};
      log := [];
    }

    /**
     * getOwner: "" for a nil id with the cache untouched; a cached name with
     * no lookup; otherwise exactly one lookup, whose answer (even "") is
     * stored under that id and nowhere else.
     */
    method GetOwner(id: Option<uint32>) returns (name: string)
      requires Valid()
      modifies this
      ensures Valid()
      ensures name == OwnerName(id, lookup)
      ensures keys == old(keys) + IdSet(id) && log == old(log) + Missed(id, old(keys))
      ensures id.None? ==> name == "" && names == old(names)
      ensures id.Some? && id.value in old(names) ==> name == old(names)[id.value] && names == old(names)
      ensures id.Some? && id.value !in old(names) ==> names == old(names)[id.value := name]
    {
      if id.None? {
        name := "";
      } else if id.value in names {
        name := names[id.value];
      } else {
        name := lookup(Sprint(id.value));
        names := names[id.value := name];
        keys := keys + {id.value};
        log := log + [id.value];
      }
    }
  }
}
