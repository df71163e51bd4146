/** Offset paging over the ordered result of a list query. */
module Paging {
  import opened Numbers
  import opened Records
  import opened Tables

  const MAX_INT64: int := 0x7fff_ffff_ffff_ffff
  const TWO_64: int := 0x1_0000_0000_0000_0000

  predicate Int64(n: int) {
    -MAX_INT64 - 1 <= n <= MAX_INT64
  }

  /** Two's complement wrap-around of a product of machine integers. */
  function Wrap(n: int): (w: int)
    ensures Int64(w) && (Int64(n) ==> w == n)
  {
    var low := n % TWO_64;
    if low > MAX_INT64 then low - TWO_64 else low
  }

  /** Search and status filters together, as a condition on rows. */
  function Selected(db: Database, entity: Entity, filter: Row -> bool): set<Key> {
    set k | k in db.rows && k.entity == entity && !db.rows[k].deleted && filter(db.rows[k])
  }

  /** ORDER BY updated_at DESC, id DESC. */
  predicate Before(db: Database, a: Key, b: Key)
    requires a in db.rows && b in db.rows
  {
    || db.rows[a].updatedAt > db.rows[b].updatedAt
    || (db.rows[a].updatedAt == db.rows[b].updatedAt && a.id > b.id)
  }

  /** The records of a query in the order the database returns them. */
  ghost predicate IsListing(db: Database, keys: set<Key>, listing: seq<Key>)
    requires keys <= db.rows.Keys
  {
    && (forall k :: k in listing <==> k in keys)
    && (forall i, j | 0 <= i < j < |listing| :: Before(db, listing[i], listing[j]))
  }

  ghost predicate OneTable(keys: set<Key>) {
    forall a, b | a in keys && b in keys :: a.entity == b.entity
  }

  lemma RestIsListing(db: Database, keys: set<Key>, listing: seq<Key>)
    requires keys <= db.rows.Keys && IsListing(db, keys, listing) && listing != []
    ensures IsListing(db, keys - {listing[0]}, listing[1..])
  {
  }

  lemma {:induction false} ListingLength(db: Database, keys: set<Key>, listing: seq<Key>)
    requires keys <= db.rows.Keys && IsListing(db, keys, listing)
    ensures |listing| == |keys|
    decreases |listing|
  {
    if listing == [] {
      assert keys == {};
    } else {
      assert listing[0] in keys;
      RestIsListing(db, keys, listing);
      ListingLength(db, keys - {listing[0]}, listing[1..]);
    }
  }

  lemma HeadComesFirst(db: Database, keys: set<Key>, listing: seq<Key>, k: Key)
    requires keys <= db.rows.Keys && IsListing(db, keys, listing) && k in listing
    ensures k == listing[0] || Before(db, listing[0], k)
  {
  }

  /** Two queries of the same rows list them identically, so pages fetched one by one fit together. */
  lemma {:induction false} ListingIsUnique(db: Database, keys: set<Key>, a: seq<Key>, b: seq<Key>)
    requires keys <= db.rows.Keys && OneTable(keys)
    requires IsListing(db, keys, a) && IsListing(db, keys, b)
    ensures a == b
    decreases |a|
  {
    ListingLength(db, keys, a);
    ListingLength(db, keys, b);
    if a != [] {
      assert a[0] in b && b[0] in a;
      HeadComesFirst(db, keys, a, b[0]);
      HeadComesFirst(db, keys, b, a[0]);
      assert a[0] == b[0];
      RestIsListing(db, keys, a);
      RestIsListing(db, keys, b);
      ListingIsUnique(db, keys - {a[0]}, a[1..], b[1..]);
    }
  }

  /** Every query has a listing, so what List requires of its listing can always be met. */
  lemma {:induction false} ListingExists(db: Database, keys: set<Key>) returns (listing: seq<Key>)
    requires keys <= db.rows.Keys && OneTable(keys)
    ensures IsListing(db, keys, listing)
    decreases |keys|
  {
    if keys == {} {
      listing := [];
    } else {
      var first := FirstOf(db, keys);
      var rest := ListingExists(db, keys - {first});
      listing := [first] + rest;
    }
  }

  lemma {:induction false} FirstOf(db: Database, keys: set<Key>) returns (first: Key)
    requires keys != {} && keys <= db.rows.Keys && OneTable(keys)
    ensures first in keys && forall k | k in keys && k != first :: Before(db, first, k)
    decreases |keys|
  {
    var k :| k in keys;
    if keys == {k} {
      first := k;
    } else {
      assert keys - {k} != {};
      first := FirstOf(db, keys - {k});
      assert first.entity == k.entity;
      if Before(db, k, first) {
        first := k;
      }
      assert forall x | x in keys :: x == k || x in keys - {k};
    }
  }

  method NormalizePage(rawPage: int, rawPageSize: int) returns (page: int, pageSize: int)
    ensures page == if rawPage < 1 then 1 else rawPage
    ensures 1 <= pageSize <= 100
    ensures 1 <= rawPageSize <= 100 ==> pageSize == rawPageSize
    ensures rawPageSize < 1 ==> pageSize == 20
    ensures rawPageSize > 100 ==> pageSize == 100
  {
    page, pageSize := rawPage, rawPageSize;
    if page < 1 {
      page := 1;
    }
    if pageSize < 1 {
      pageSize := 20;
    }
    if pageSize > 100 {
      pageSize := 100;
    }
  }

  /** The page a reader asks for. */
  function PageOf(listing: seq<Key>, page: int, pageSize: int): seq<Key>
    requires page >= 1 && pageSize >= 1
  {
    listing[Min((page - 1) * pageSize, |listing|)..Min(page * pageSize, |listing|)]
  }

  /** OFFSET and LIMIT; an offset that is not positive skips nothing. */
  function Slice(listing: seq<Key>, offset: int, limit: int): seq<Key>
    requires limit >= 1
  {
    var from := Min(Max(0, offset), |listing|);
    listing[from..Min(from + limit, |listing|)]
  }

  datatype Page = Page(items: seq<Key>, total: nat, page: int, pageSize: int)

  /** What a list query is after: the live records of its table that meet its filter. */
  predicate Matches(db: Database, entity: Entity, filter: Row -> bool, k: Key) {
    Live(db, k) && k.entity == entity && filter(db.rows[k])
  }

  lemma SelectedAreTheMatches(db: Database, entity: Entity, filter: Row -> bool)
    ensures forall k :: k in Selected(db, entity, filter) <==> Matches(db, entity, filter, k)
    ensures Selected(db, entity, filter) == set k | k in db.rows && Matches(db, entity, filter, k)
  {
  }

  lemma SliceMatches(db: Database, entity: Entity, filter: Row -> bool, listing: seq<Key>, offset: int, limit: int)
    requires IsListing(db, Selected(db, entity, filter), listing) && limit >= 1
    ensures forall k | k in Slice(listing, offset, limit) :: Matches(db, entity, filter, k)
    ensures |listing| == |set k | k in db.rows && Matches(db, entity, filter, k)|
  {
    SelectedAreTheMatches(db, entity, filter);
    ListingLength(db, Selected(db, entity, filter), listing);
    forall k | k in Slice(listing, offset, limit) ensures Matches(db, entity, filter, k) {
      assert k in listing;
    }
  }

  /** List counts in one query and fetches in another, with any requests between: counted and db are the tables
      as the two find them, and listing is the ordered result of the second. */
  method List(counted: Database, db: Database, entity: Entity, filter: Row -> bool, rawPage: int, rawPageSize: int,
              listing: seq<Key>, fault: QueryFault) returns (result: Result<Page>)
    requires IsListing(db, Selected(db, entity, filter), listing)
    ensures result.Ok? <==> fault.QueriesWork?
    ensures result.Err? ==> result == Err(StoreFailure)
    ensures result.Ok? ==>
              && result.value.total == |set k | k in counted.rows && Matches(counted, entity, filter, k)|
              && (counted == db ==> result.value.total == |listing|)
              && (forall k | k in result.value.items :: Matches(db, entity, filter, k))
              && result.value.page == Max(1, rawPage) && 1 <= result.value.pageSize <= 100
              && (1 <= rawPageSize <= 100 ==> result.value.pageSize == rawPageSize)
    ensures result.Ok? && |listing| <= MAX_INT64 ==>
              (result.value.items == PageOf(listing, result.value.page, result.value.pageSize)
               <==> OffsetFits(result.value.page, result.value.pageSize, |listing|))
  {
    var page, pageSize := NormalizePage(rawPage, rawPageSize);
    if fault.FirstQueryFails? {
      return Err(StoreFailure);
    }
    SelectedAreTheMatches(counted, entity, filter);
    hide Selected, Matches, Slice, Wrap, IsListing, OffsetFits, PageOf;
    var total := |Selected(counted, entity, filter)|;
    if fault.SecondQueryFails? {
      return Err(StoreFailure);
    }
    var offset := Wrap((page - 1) * pageSize);
    SliceMatches(db, entity, filter, listing, offset, pageSize);
    result := Ok(Page(Slice(listing, offset, pageSize), total, page, pageSize));
    if |listing| <= MAX_INT64 {
      RightPageIffOffsetFits(listing, page, pageSize);
    }
  }

  /** The offset survives machine arithmetic, or lands past the end all the same. */
  predicate OffsetFits(page: int, pageSize: int, total: nat) {
    (page - 1) * pageSize <= MAX_INT64 || Wrap((page - 1) * pageSize) >= total || total == 0
  }

  lemma RightPageIffOffsetFits(listing: seq<Key>, page: int, pageSize: int)
    requires page >= 1 && pageSize >= 1 && |listing| <= MAX_INT64
    ensures Slice(listing, Wrap((page - 1) * pageSize), pageSize) == PageOf(listing, page, pageSize)
       <==> OffsetFits(page, pageSize, |listing|)
  {
    var offset := (page - 1) * pageSize;
    assert page * pageSize == offset + pageSize;
    assert offset >= 0;
    if offset > MAX_INT64 {
      assert PageOf(listing, page, pageSize) == [];
    }
  }

  /** A page number for which the product wraps to zero shows the first page again instead of nothing. */
  lemma HugePageShowsTheFirst(listing: seq<Key>)
    requires 0 < |listing| <= MAX_INT64
    ensures var page := 0x4000_0000_0000_0001;
            && Int64(page)
            && Slice(listing, Wrap((page - 1) * 20), 20) == PageOf(listing, 1, 20) != []
            && PageOf(listing, page, 20) == []
  {
  }

  function LastPage(total: nat, pageSize: int): int
    requires pageSize >= 1
  {
    Max(1, (total + pageSize - 1) / pageSize)
  }

  /** Pages 1..n one after the other. */
  function Pages(listing: seq<Key>, n: nat, pageSize: int): seq<Key>
    requires pageSize >= 1
  {
    if n == 0 then [] else Pages(listing, n - 1, pageSize) + PageOf(listing, n, pageSize)
  }

  lemma {:induction false} PagesAreAPrefix(listing: seq<Key>, n: nat, pageSize: int)
    requires pageSize >= 1
    ensures 0 <= n * pageSize && Pages(listing, n, pageSize) == listing[..Min(n * pageSize, |listing|)]
  {
    if n > 0 {
      PagesAreAPrefix(listing, n - 1, pageSize);
      assert n * pageSize == (n - 1) * pageSize + pageSize;
    }
  }

  lemma LastPageCovers(total: nat, pageSize: int)
    requires pageSize >= 1
    ensures var last := LastPage(total, pageSize);
            last >= 1 && total <= last * pageSize && (last - 1) * pageSize <= total
  {
  }

  lemma PagesAreOrdered(p: int, q: int, pageSize: int)
    requires pageSize >= 1 && p <= q
    ensures p * pageSize <= q * pageSize
  {
  }

  lemma PageSizes(listing: seq<Key>, pageSize: int, page: int)
    requires pageSize >= 1 && page >= 1
    ensures var last := LastPage(|listing|, pageSize);
            && (page < last ==> |PageOf(listing, page, pageSize)| == pageSize)
            && (page > last ==> PageOf(listing, page, pageSize) == [])
            && (page <= last ==> (page - 1) * pageSize <= |listing|)
  {
    var last := LastPage(|listing|, pageSize);
    LastPageCovers(|listing|, pageSize);
    assert page * pageSize == (page - 1) * pageSize + pageSize;
    if page <= last {
      PagesAreOrdered(page - 1, last - 1, pageSize);
    }
    if page < last {
      PagesAreOrdered(page, last - 1, pageSize);
    } else if page > last {
      PagesAreOrdered(last, page - 1, pageSize);
    }
  }

  /** Pages tile the result: pages 1 to the last, one after the other, are the listing; all but the last are
      full; later ones are empty; and every one of them survives machine arithmetic. */
  lemma PagesTile(listing: seq<Key>, pageSize: int, page: int)
    requires 1 <= pageSize <= 100 && page >= 1 && |listing| <= MAX_INT64
    ensures var last := LastPage(|listing|, pageSize);
            && Pages(listing, last, pageSize) == listing
            && (page < last ==> |PageOf(listing, page, pageSize)| == pageSize)
            && (page > last ==> PageOf(listing, page, pageSize) == [])
            && (page <= last ==> OffsetFits(page, pageSize, |listing|))
  {
    var last := LastPage(|listing|, pageSize);
    LastPageCovers(|listing|, pageSize);
    PagesAreAPrefix(listing, last, pageSize);
    PageSizes(listing, pageSize, page);
  }

  /** Record a comes before record b: later changes first, then higher ids. */
  predicate Precedes(db: Database, a: Key, b: Key) {
    && a in db.rows && b in db.rows
    && var ta, tb := db.rows[a].updatedAt, db.rows[b].updatedAt;
       tb < ta || (ta == tb && b.id < a.id)
  }

  /** Turning the pages from the first to the last shows every live record of the table that meets the filter, shows
      it once, shows nothing else, and goes back in time. */
  lemma PagesShowTheMatches(db: Database, entity: Entity, filter: Row -> bool, listing: seq<Key>, pageSize: int)
    requires IsListing(db, Selected(db, entity, filter), listing) && pageSize >= 1
    ensures var shown := Pages(listing, LastPage(|listing|, pageSize), pageSize);
            && (forall k :: k in shown <==> Matches(db, entity, filter, k))
            && (forall i, j | 0 <= i < j < |shown| :: shown[i] != shown[j] && Precedes(db, shown[i], shown[j]))
            && |shown| == |set k | k in db.rows && Matches(db, entity, filter, k)|
  {
    LastPageCovers(|listing|, pageSize);
    PagesAreAPrefix(listing, LastPage(|listing|, pageSize), pageSize);
    SelectedAreTheMatches(db, entity, filter);
    ListingLength(db, Selected(db, entity, filter), listing);
  }

  function Without(listing: seq<Key>, key: Key): seq<Key> {
    if listing == [] then []
    else
      var last := listing[|listing| - 1];
      Without(listing[..|listing| - 1], key) + (if last == key then [] else [last])
  }

  lemma {:induction false} WithoutKeepsTheRest(db: Database, keys: set<Key>, listing: seq<Key>, key: Key)
    requires keys <= db.rows.Keys && IsListing(db, keys, listing)
    ensures IsListing(db, keys - {key}, Without(listing, key))
    decreases |listing|
  {
    if listing != [] {
      var front, last := listing[..|listing| - 1], listing[|listing| - 1];
      assert listing == front + [last];
      assert last !in front by {
        assert forall i | 0 <= i < |front| :: Before(db, listing[i], last);
      }
      WithoutKeepsTheRest(db, keys - {last}, front, key);
      var rest := Without(front, key);
      forall i | 0 <= i < |rest| ensures rest[i] in db.rows && Before(db, rest[i], last) {
        assert rest[i] in rest && rest[i] in listing;
        var j :| 0 <= j < |listing| && listing[j] == rest[i];
        assert Before(db, listing[j], listing[|listing| - 1]);
      }
    }
  }

  lemma SameRowsSameListing(db: Database, db': Database, keys: set<Key>, listing: seq<Key>)
    requires keys <= db.rows.Keys && IsListing(db, keys, listing)
    requires forall k | k in keys :: k in db'.rows && db'.rows[k].updatedAt == db.rows[k].updatedAt
    ensures IsListing(db', keys, listing)
  {
  }

  /** After a delete the listing is the old one without the deleted record, and no page shows it. */
  lemma DeletedAreNotListed(db: Database, db': Database, key: Key, entity: Entity, filter: Row -> bool,
                            listing: seq<Key>, listing': seq<Key>, page: int, pageSize: int)
    requires DeleteRow(db, key) == Ok(db') && page >= 1 && pageSize >= 1
    requires IsListing(db, Selected(db, entity, filter), listing)
    requires IsListing(db', Selected(db', entity, filter), listing')
    ensures listing' == Without(listing, key)
    ensures key !in PageOf(listing', page, pageSize)
  {
    var keys, keys' := Selected(db, entity, filter), Selected(db', entity, filter);
    assert keys' == keys - {key};
    WithoutKeepsTheRest(db, keys, listing, key);
    SameRowsSameListing(db, db', keys', Without(listing, key));
    ListingIsUnique(db', keys', Without(listing, key), listing');
    PageIsListed(listing', page, pageSize, key);
  }

  lemma PageIsListed(listing: seq<Key>, page: int, pageSize: int, k: Key)
    requires page >= 1 && pageSize >= 1
    ensures k in PageOf(listing, page, pageSize) ==> k in listing
  {
  }
}

/** One revision query for a whole page, grouped by record, against one query per record. */
module Batching {
  import opened Records
  import opened Tables
  import opened Rely
  import opened Machine
  import opened Invariants
  import opened Runs

  /** A listed record with the revisions attached to it. */
  datatype Listed = Listed(key: Key, row: Row, revisions: seq<Revision>)

  function Wanted(log: seq<Revision>, ids: seq<Key>): seq<Revision> {
    if log == [] then []
    else
      var last := log[|log| - 1];
      Wanted(log[..|log| - 1], ids) + (if last.key in ids then [last] else [])
  }

  /** WHERE record_id IN ids ORDER BY record_id, version. */
  ghost predicate BatchAnswer(log: seq<Revision>, ids: seq<Key>, answer: seq<Revision>) {
    && multiset(answer) == multiset(Wanted(log, ids))
    && forall i, j | 0 <= i < j < |answer| ::
         answer[i].key.id < answer[j].key.id
         || (answer[i].key.id == answer[j].key.id && answer[i].version <= answer[j].version)
  }

  ghost predicate VersionOrder(answer: seq<Revision>) {
    forall i, j | 0 <= i < j < |answer| :: answer[i].version <= answer[j].version
  }

  /** WHERE record_id = key ORDER BY version. */
  ghost predicate RecordAnswer(log: seq<Revision>, key: Key, answer: seq<Revision>) {
    multiset(answer) == multiset(RevisionsOf(log, key)) && VersionOrder(answer)
  }

  /** The unique index on (record, version). */
  ghost predicate UniqueVersions(log: seq<Revision>) {
    forall i, j | 0 <= i < j < |log| :: log[i].key != log[j].key || log[i].version != log[j].version
  }

  lemma {:induction false} SelectionKeepsMultiplicity(log: seq<Revision>, key: Key, r: Revision)
    ensures multiset(RevisionsOf(log, key))[r] == if r.key == key then multiset(log)[r] else 0
  {
    if log != [] {
      SelectionKeepsMultiplicity(log[..|log| - 1], key, r);
      assert log == log[..|log| - 1] + [log[|log| - 1]];
    }
  }

  lemma {:induction false} WantedKeepsMultiplicity(log: seq<Revision>, ids: seq<Key>, r: Revision)
    ensures multiset(Wanted(log, ids))[r] == if r.key in ids then multiset(log)[r] else 0
  {
    if log != [] {
      WantedKeepsMultiplicity(log[..|log| - 1], ids, r);
      assert log == log[..|log| - 1] + [log[|log| - 1]];
    }
  }

  /** The part of a batch that belongs to one record is an answer to that record's own query. */
  lemma GroupIsARecordAnswer(log: seq<Revision>, ids: seq<Key>, answer: seq<Revision>, key: Key)
    requires BatchAnswer(log, ids, answer) && key in ids
    ensures RecordAnswer(log, key, RevisionsOf(answer, key))
  {
    var group := RevisionsOf(answer, key);
    forall r ensures multiset(group)[r] == multiset(RevisionsOf(log, key))[r] {
      SelectionKeepsMultiplicity(answer, key, r);
      SelectionKeepsMultiplicity(log, key, r);
      WantedKeepsMultiplicity(log, ids, r);
    }
    GroupKeepsOrder(answer, key);
  }

  lemma {:induction false} GroupKeepsOrder(answer: seq<Revision>, key: Key)
    requires forall i, j | 0 <= i < j < |answer| ::
               answer[i].key.id < answer[j].key.id
               || (answer[i].key.id == answer[j].key.id && answer[i].version <= answer[j].version)
    ensures VersionOrder(RevisionsOf(answer, key))
  {
    if answer != [] {
      var front, last := answer[..|answer| - 1], answer[|answer| - 1];
      GroupKeepsOrder(front, key);
      forall r | r in RevisionsOf(front, key) && last.key == key ensures r.version <= last.version {
        RevisionsOfMembers(front, key, r);
        var i :| 0 <= i < |front| && front[i] == r;
        assert answer[i] == r;
      }
    }
  }

  ghost predicate DistinctVersions(a: seq<Revision>) {
    forall r, s | r in a && s in a && r.version == s.version :: r == s
  }

  lemma LastsAreEqual(a: seq<Revision>, b: seq<Revision>)
    requires multiset(a) == multiset(b) && VersionOrder(a) && VersionOrder(b) && a != [] && b != []
    requires DistinctVersions(a)
    ensures a[|a| - 1] == b[|b| - 1]
  {
    var x, y := a[|a| - 1], b[|b| - 1];
    assert x in multiset(b) && y in multiset(a);
    var i :| 0 <= i < |b| && b[i] == x;
    var j :| 0 <= j < |a| && a[j] == y;
    assert i < |b| - 1 ==> b[i].version <= b[|b| - 1].version;
    assert j < |a| - 1 ==> a[j].version <= a[|a| - 1].version;
  }

  lemma WithoutLast(a: seq<Revision>)
    requires a != []
    ensures multiset(a[..|a| - 1]) == multiset(a) - multiset{a[|a| - 1]}
    ensures VersionOrder(a) ==> VersionOrder(a[..|a| - 1])
    ensures DistinctVersions(a) ==> DistinctVersions(a[..|a| - 1])
  {
    assert a == a[..|a| - 1] + [a[|a| - 1]];
  }

  /** With unique versions there is only one answer to a record's query. */
  lemma {:induction false} RecordAnswersAreEqual(a: seq<Revision>, b: seq<Revision>)
    requires multiset(a) == multiset(b) && VersionOrder(a) && VersionOrder(b)
    requires DistinctVersions(a)
    ensures a == b
    decreases |a|
  {
    hide VersionOrder, DistinctVersions;
    if a == [] {
      assert |multiset(b)| == |b|;
    } else {
      assert |multiset(b)| == |b| && |multiset(a)| == |a|;
      LastsAreEqual(a, b);
      WithoutLast(a);
      WithoutLast(b);
      RecordAnswersAreEqual(a[..|a| - 1], b[..|b| - 1]);
      assert a == a[..|a| - 1] + [a[|a| - 1]];
      assert b == b[..|b| - 1] + [b[|b| - 1]];
    }
  }

  lemma UniqueWithinRecord(log: seq<Revision>, key: Key, a: seq<Revision>)
    requires UniqueVersions(log) && RecordAnswer(log, key, a)
    ensures DistinctVersions(a)
  {
    forall r, s | r in a && s in a && r.version == s.version ensures r == s {
      assert r in multiset(RevisionsOf(log, key)) && s in multiset(RevisionsOf(log, key));
      RevisionsOfMembers(log, key, r);
      RevisionsOfMembers(log, key, s);
      var i :| 0 <= i < |log| && log[i] == r;
      var j :| 0 <= j < |log| && log[j] == s;
    }
  }

  /** The batched history of a record is the history Get loads for it. */
  lemma BatchedEqualsPerRecord(log: seq<Revision>, ids: seq<Key>, answer: seq<Revision>, key: Key,
                               own: seq<Revision>)
    requires UniqueVersions(log) && BatchAnswer(log, ids, answer) && key in ids && RecordAnswer(log, key, own)
    ensures RevisionsOf(answer, key) == own
  {
    GroupIsARecordAnswer(log, ids, answer, key);
    UniqueWithinRecord(log, key, own);
    RecordAnswersAreEqual(own, RevisionsOf(answer, key));
  }

  /** Entry i of the log is the entry of its record that comes after those before it. */
  lemma {:induction false} PlaceInRecord(log: seq<Revision>, key: Key, i: nat)
    requires i < |log| && log[i].key == key
    ensures |RevisionsOf(log[..i], key)| < |RevisionsOf(log, key)|
    ensures RevisionsOf(log, key)[|RevisionsOf(log[..i], key)|] == log[i]
    decreases |log|
  {
    if i < |log| - 1 {
      PlaceInRecord(log[..|log| - 1], key, i);
      assert log[..|log| - 1][..i] == log[..i];
    }
  }

  /** Dense histories leave no room for a duplicate: in a valid database the unique index holds. */
  lemma ValidLogsAreUnique(db: Database)
    requires DatabaseValid(db)
    ensures UniqueVersions(db.revisions)
  {
    var log := db.revisions;
    forall i, j | 0 <= i < j < |log| && log[i].key == log[j].key ensures log[i].version != log[j].version {
      var key := log[i].key;
      PlaceInRecord(log, key, i);
      PlaceInRecord(log, key, j);
      PlaceInRecord(log[..j], key, i);
      assert log[..j][..i] == log[..i];
      assert RecordValid(db, key);
    }
  }

  /** In a valid database the index holds and the per-record query returns the log's own order. */
  lemma ValidLogsAnswerInOrder(db: Database, key: Key)
    requires DatabaseValid(db)
    ensures UniqueVersions(db.revisions)
    ensures RecordAnswer(db.revisions, key, RevisionsOf(db.revisions, key))
  {
    ValidLogsAreUnique(db);
    assert RecordValid(db, key);
  }

  /** At any point of any run, the part of a batch that belongs to a record is its whole history, in order. */
  lemma BatchesAreComplete(s0: State, ls: seq<Label>, ids: seq<Key>, answer: seq<Revision>, key: Key)
    requires Initial(s0) && BatchAnswer(Run(s0, ls).db.revisions, ids, answer) && key in ids
    ensures var db := Run(s0, ls).db;
            var history := RevisionsOf(answer, key);
            && history == RevisionsOf(db.revisions, key)
            && |history| == (if key in db.rows then db.rows[key].version else 0)
            && (forall i | 0 <= i < |history| :: history[i].version == i + 1)
  {
    hide Run;
    var db := Run(s0, ls).db;
    ReachableIsWellFormed(s0, ls);
    WellFormedIsValid(Run(s0, ls));
    ValidLogsAnswerInOrder(db, key);
    BatchedEqualsPerRecord(db.revisions, ids, answer, key, RevisionsOf(db.revisions, key));
    assert RecordValid(db, key);
  }

  /** List reads its page and then, with any steps between, the revisions of all of it: each item's part still
      starts with the complete history of the version the item shows. */
  lemma TornList(s0: State, before: seq<Label>, during: seq<Label>, ids: seq<Key>, answer: seq<Revision>, key: Key)
    requires Initial(s0) && Live(Run(s0, before).db, key) && key in ids
    requires BatchAnswer(Run(s0, before + during).db.revisions, ids, answer)
    ensures var db, history := Run(s0, before).db, RevisionsOf(answer, key);
            && 1 <= db.rows[key].version <= |history|
            && history[..db.rows[key].version] == RevisionsOf(db.revisions, key)
            && history[db.rows[key].version - 1].status == db.rows[key].status
            && history[db.rows[key].version - 1].evidence == db.rows[key].fields.evidence
  {
    hide Run;
    BatchesAreComplete(s0, before + during, ids, answer, key);
    TornGet(s0, before, during, key);
  }

  /** The two loops of List: group the one answer by record, then write each group into its item. */
  method AttachRevisions(items: array<Listed>, log: seq<Revision>, answer: seq<Revision>, ghost ids: seq<Key>)
    requires |ids| == items.Length && forall i | 0 <= i < |ids| :: ids[i] == items[i].key
    requires BatchAnswer(log, ids, answer)
    modifies items
    ensures forall i | 0 <= i < items.Length ::
              items[i] == old(items[i]).(revisions := RevisionsOf(answer, old(items[i]).key))
    ensures UniqueVersions(log) ==>
              forall i, own | 0 <= i < items.Length && RecordAnswer(log, items[i].key, own) ::
                items[i].revisions == own
  {
    var byRecord: map<Key, seq<Revision>> := map[];
    for n := 0 to |answer|
      invariant forall key :: Group(byRecord, key) == RevisionsOf(answer[..n], key)
    {
      var revision := answer[n];
      assert answer[..n + 1] == answer[..n] + [revision];
      forall key ensures RevisionsOf(answer[..n + 1], key)
                      == RevisionsOf(answer[..n], key) + (if revision.key == key then [revision] else [])
      {
        RevisionsOfAppend(answer[..n], revision, key);
      }
      byRecord := byRecord[revision.key := Group(byRecord, revision.key) + [revision]];
    }
    assert answer[..|answer|] == answer;
    for index := 0 to items.Length
      invariant forall i | 0 <= i < index ::
                  items[i] == old(items[i]).(revisions := RevisionsOf(answer, old(items[i]).key))
      invariant forall i | index <= i < items.Length :: items[i] == old(items[i])
    {
      items[index] := items[index].(revisions := Group(byRecord, items[index].key));
    }
    if UniqueVersions(log) {
      forall i, own | 0 <= i < items.Length && RecordAnswer(log, items[i].key, own)
        ensures items[i].revisions == own
      {
        assert ids[i] in ids;
        BatchedEqualsPerRecord(log, ids, answer, items[i].key, own);
      }
    }
  }

  function Group(byRecord: map<Key, seq<Revision>>, key: Key): seq<Revision> {
    if key in byRecord then byRecord[key] else []
  }
}
