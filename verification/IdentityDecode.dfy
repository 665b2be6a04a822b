/** Reading a stored identity back: an old store is migrated, an unreadable one refused. */
module IdentityDecode {
  import opened Common
  import opened IdentityState
  import opened IdentityMerge

  datatype Decoded = Decoded(stored: Stored, migrated: bool)

  function Migrate(k: Key): Key {
    match LegacyFence(k)
    case Some(fence) => fence
    case None => k
  }

  /** Collecting into a map: under one key, the last entry stays. */
  function Collect(es: seq<Stamped>): Revisions {
    if es == [] then map[]
    else Collect(es[..|es| - 1])[Migrate(es[|es| - 1].key) := es[|es| - 1].revision]
  }

  function DecodeStore(list: Revisions -> seq<Stamped>, stored: Stored): Option<Decoded> {
    if stored.schema != 1 && stored.schema != SCHEMA_VERSION then None
    else
      var _ :- Flatten(stored.state);
      if stored.schema == 1
      then Some(Decoded(stored.(schema := SCHEMA_VERSION, revisions := Collect(list(stored.revisions))), true))
      else Some(Decoded(stored, false))
  }

  /** The store can be decoded, is up to date once it is, and has lost nothing but the old names of its stamps. */
  lemma DecodesExactly(list: Revisions -> seq<Stamped>, stored: Stored)
    ensures DecodeStore(list, stored).Some?
            <==> (stored.schema == 1 || stored.schema == 2) && Flatten(stored.state).Some?
    ensures DecodeStore(list, stored).Some? ==>
              var d := DecodeStore(list, stored).value;
              && d.stored.state == stored.state && d.stored.revision == stored.revision
              && d.stored.recovery == stored.recovery && d.stored.schema == 2
              && (d.migrated <==> stored.schema == 1)
              && (stored.schema == 2 ==> d.stored == stored)
              && (stored.schema == 1 ==> d.stored.revisions == Collect(list(stored.revisions)))
  {
  }
}
