/** The object-store audit behind metadata growth. */
module Audit {
  import opened Ordering
  import opened Contention

  datatype ObjectStoreFailure = Configuration | Authentication | Listing | Reading

  datatype TableAudit = TableAudit(
    metadataObjects: nat, metadataBytes: nat, parquetObjects: nat, parquetBytes: nat, referencedMetadataExists: bool)

  predicate IsParquet(o: StoredObject) {
    !IsMetadata(o) && EndsWith(o.location, ".parquet")
  }

  function Bytes(objects: seq<StoredObject>): nat {
    if objects == [] then 0 else objects[0].size + Bytes(objects[1..])
  }

  /** The totals of a listing, whatever order the store lists it in. */
  function Totals(listing: seq<StoredObject>, referenced: string): TableAudit {
    TableAudit(
      MetadataCount(listing), Bytes(Filter(IsMetadata, listing)),
      |Filter(IsParquet, listing)|, Bytes(Filter(IsParquet, listing)),
      exists o :: o in listing && IsMetadata(o) && o.location == referenced)
  }

  predicate Representable(a: TableAudit) {
    a.metadataObjects <= U64_MAX && a.metadataBytes <= U64_MAX && a.parquetObjects <= U64_MAX &&
      a.parquetBytes <= U64_MAX
  }

  lemma {:induction false} BytesAppend(a: seq<StoredObject>, b: seq<StoredObject>)
    ensures Bytes(a + b) == Bytes(a) + Bytes(b)
  {
    if a == [] {
      assert a + b == b;
    } else {
      assert (a + b)[1..] == a[1..] + b;
      BytesAppend(a[1..], b);
    }
  }

  lemma OneMore(keep: StoredObject -> bool, listing: seq<StoredObject>, o: StoredObject)
    ensures Filter(keep, listing + [o]) == Filter(keep, listing) + (if keep(o) then [o] else [])
    ensures Bytes(Filter(keep, listing + [o])) == Bytes(Filter(keep, listing)) + (if keep(o) then o.size else 0)
  {
    FilterAppend(keep, listing, [o]);
    assert [o][1..] == [];
    BytesAppend(Filter(keep, listing), if keep(o) then [o] else []);
    assert Bytes([o]) == o.size;
  }

  lemma Grows(keep: StoredObject -> bool, listing: seq<StoredObject>, k: nat)
    requires k <= |listing|
    ensures |Filter(keep, listing[..k])| <= |Filter(keep, listing)|
    ensures Bytes(Filter(keep, listing[..k])) <= Bytes(Filter(keep, listing))
  {
    assert listing == listing[..k] + listing[k..];
    FilterAppend(keep, listing[..k], listing[k..]);
    BytesAppend(Filter(keep, listing[..k]), Filter(keep, listing[k..]));
  }

  lemma TooLarge(listing: seq<StoredObject>, k: nat, referenced: string)
    requires k <= |listing| && !Representable(Totals(listing[..k], referenced))
    ensures !Representable(Totals(listing, referenced))
  {
    Grows(IsMetadata, listing, k);
    Grows(IsParquet, listing, k);
  }

  function Counted(a: TableAudit, o: StoredObject, referenced: string): TableAudit {
    if IsMetadata(o) then
      a.(metadataObjects := a.metadataObjects + 1, metadataBytes := a.metadataBytes + o.size,
         referencedMetadataExists := a.referencedMetadataExists || o.location == referenced)
    else if IsParquet(o) then a.(parquetObjects := a.parquetObjects + 1, parquetBytes := a.parquetBytes + o.size)
    else a
  }

  lemma TotalsStep(listing: seq<StoredObject>, i: nat, referenced: string)
    requires i < |listing|
    ensures Totals(listing[..i + 1], referenced) == Counted(Totals(listing[..i], referenced), listing[i], referenced)
  {
    assert listing[..i + 1] == listing[..i] + [listing[i]];
    OneMore(IsMetadata, listing[..i], listing[i]);
    OneMore(IsParquet, listing[..i], listing[i]);
  }

  /** The counting loop. It fails exactly when the listing breaks off or a
      64-bit quantity cannot represent it; otherwise it returns the totals. */
  method AuditTable(listing: seq<StoredObject>, broken: bool, referenced: string)
    returns (r: Result<TableAudit, ObjectStoreFailure>)
    ensures r == (if broken || !Representable(Totals(listing, referenced)) ||
            (exists o :: o in listing && o.size > U64_MAX)
                  then Err(Listing) else Ok(Totals(listing, referenced)))
  {
    var audit := TableAudit(0, 0, 0, 0, false);
    for i := 0 to |listing|
      invariant audit == Totals(listing[..i], referenced) && Representable(audit)
      invariant forall k :: 0 <= k < i ==> listing[k].size <= U64_MAX
    {
      TotalsStep(listing, i, referenced);
      if listing[i].size > U64_MAX {
        assert listing[i] in listing;
        return Err(Listing);
      }
      var fits;
      audit, fits := Count(audit, listing[i], referenced);
      if !fits {
        TooLarge(listing, i + 1, referenced);
        return Err(Listing);
      }
    }
    assert listing[..|listing|] == listing;
    return if broken then Err(Listing) else Ok(audit);
  }

  /** Adds one object with checked 64-bit additions. */
  method Count(audit: TableAudit, entry: StoredObject, referenced: string) returns (next: TableAudit, fits: bool)
    requires Representable(audit)
    ensures fits <==> Representable(Counted(audit, entry, referenced))
    ensures fits ==> next == Counted(audit, entry, referenced)
  {
    next, fits := audit, false;
    if IsMetadata(entry) {
      if audit.metadataObjects == U64_MAX || audit.metadataBytes + entry.size > U64_MAX { return; }
      next := next.(metadataObjects := audit.metadataObjects + 1);
      next := next.(metadataBytes := audit.metadataBytes + entry.size);
      next := next.(referencedMetadataExists := audit.referencedMetadataExists || entry.location == referenced);
    } else if EndsWith(entry.location, ".parquet") {
      if audit.parquetObjects == U64_MAX || audit.parquetBytes + entry.size > U64_MAX { return; }
      next := next.(parquetObjects := audit.parquetObjects + 1);
      next := next.(parquetBytes := audit.parquetBytes + entry.size);
    }
    fits := true;
  }
}
