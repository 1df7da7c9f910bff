/**
 * The client store the use case layer calls: `Create(info)` allocates a fresh
 * identifier and returns it, `Delete(uid)` removes a record and reports a
 * missing one as `ErrClientNotFound`. Identifiers are opaque; this model mints
 * the n-th one as a string of length n + 1, which keeps every new identifier
 * distinct from all earlier ones.
 */
module ClientStore {

  import opened Wrappers
  import opened Bytes
  import opened Errors

  type Records = map<string, seq<byte>>

  function Mint(n: nat): string
  {
    seq(n + 1, _ => 'c')
  }

  /** Every stored identifier was minted before the `minted`-th one. */
  ghost predicate Allocated(records: Records, minted: nat)
  {
    forall id :: id in records ==> |id| <= minted
  }

  /** The identifier minted next is in use by no record, is never empty, and
      storing under it keeps the allocation invariant. */
  lemma MintIsFresh(records: Records, minted: nat, info: seq<byte>)
    requires Allocated(records, minted)
    ensures Mint(minted) !in records && Mint(minted) != ""
    ensures Allocated(records[Mint(minted) := info], minted + 1)
  {
    assert |Mint(minted)| == minted + 1;
  }

  class ClientStore {
    var records: Records
    var minted: nat

    ghost predicate Valid()
      reads this
    {
      Allocated(records, minted)
    }

    constructor ()
      ensures Valid() && records == map[] && minted == 0
    {
      records := map[];
      minted := 0;
    }

    method Create(info: seq<byte>, fault: Option<Fault>) returns (uid: string, err: Option<Error>)
      requires Valid()
      modifies this
      ensures Valid()
      ensures fault.Some? ==> uid == "" && err == Some(Driver(fault.value))
      ensures fault.Some? ==> records == old(records) && minted == old(minted)
      ensures fault.None? ==> err.None? && uid == Mint(old(minted)) && minted == old(minted) + 1
      ensures fault.None? ==> uid != "" && uid !in old(records) && records == old(records)[uid := info]
    {
      if fault.Some? {
        return "", Some(Driver(fault.value));
      }
      MintIsFresh(records, minted, info);
      uid := Mint(minted);
      records := records[uid := info];
      minted := minted + 1;
      err := None;
    }

    method Delete(uid: string, fault: Option<Fault>) returns (err: Option<Error>)
      requires Valid()
      modifies this
      ensures Valid() && minted == old(minted)
      ensures fault.Some? ==> err == Some(Driver(fault.value)) && records == old(records)
      ensures fault.None? ==> records == old(records) - {uid}
      ensures fault.None? ==> (err.None? <==> uid in old(records))
      ensures fault.None? && err.Some? ==> err.value == ErrClientNotFound
    {
      if fault.Some? {
        return Some(Driver(fault.value));
      }
      if uid !in records {
        return Some(ErrClientNotFound);
      }
      records := records - {uid};
      err := None;
    }
  }
}
