/**
 * The store operations and the listing query (app/crud.py), over an
 * in-memory table in place of the SQL session.
 */
module Crud {
  import opened Wrappers
  import opened Dates
  import opened Schemas
  import opened Models
  import opened Deps

  function Min(a: int, b: int): int
  {
    if a <= b then a else b
  }

  // =====================================================================
  // list_entries: WHERE, ORDER BY date DESC, id DESC, LIMIT, OFFSET
  // =====================================================================

  /** A text criterion takes part only when it is truthy (`if status:`): present and non-empty. */
  predicate Truthy(c: Option<string>)
  {
    c.Some? && c.value != ""
  }

  /**
   * The conjunction of the `conds` list.  A date criterion is applied
   * whenever present, since a `date` is always truthy.
   */
  predicate Matches(f: FilterParams, e: Entry)
  {
    && (f.dateFrom.Some? ==> Le(f.dateFrom.value, e.data.date))
    && (f.dateTo.Some? ==> Le(e.data.date, f.dateTo.value))
    && (Truthy(f.status) ==> StatusName(e.data.status) == f.status.value)
    && (Truthy(f.kind) ==> KindName(e.data.kind) == f.kind.value)
    && (Truthy(f.category) ==> e.data.category == f.category.value)
    && (Truthy(f.subcategory) ==> e.data.subcategory == f.subcategory.value)
  }

  /** `a` may be listed before `b`: newer date first, and on the same date the larger id first. */
  predicate Precedes(a: Entry, b: Entry)
  {
    Lt(b.data.date, a.data.date) || (a.data.date == b.data.date && a.id >= b.id)
  }

  /** `a` must be listed before `b`. */
  predicate Before(a: Entry, b: Entry)
  {
    Lt(b.data.date, a.data.date) || (a.data.date == b.data.date && a.id > b.id)
  }

  predicate Sorted(s: seq<Entry>)
  {
    forall i, j :: 0 <= i < j < |s| ==> Precedes(s[i], s[j])
  }

  predicate StrictlySorted(s: seq<Entry>)
  {
    forall i, j :: 0 <= i < j < |s| ==> Before(s[i], s[j])
  }

  predicate UniqueIds(s: seq<Entry>)
  {
    forall i, j :: 0 <= i < j < |s| ==> s[i].id != s[j].id
  }

  lemma PrecedesTotal(a: Entry, b: Entry)
    ensures Precedes(a, b) || Precedes(b, a)
  {
  }

  lemma PrecedesTransitive(a: Entry, b: Entry, c: Entry)
    requires Precedes(a, b) && Precedes(b, c)
    ensures Precedes(a, c)
  {
  }

  /** With distinct ids, `Precedes` is `Before`. */
  lemma SortedUniqueIsStrict(s: seq<Entry>)
    requires Sorted(s)
    ensures UniqueIds(s) ==> StrictlySorted(s)
  {
  }

  /** The WHERE clause: the rows that meet every criterion, in scan order. */
  function Select(rows: seq<Entry>, f: FilterParams): (r: seq<Entry>)
    ensures forall x :: x in r <==> x in rows && Matches(f, x)
    ensures multiset(r) <= multiset(rows)
    ensures UniqueIds(rows) ==> UniqueIds(r)
  {
    if rows == [] then
      []
    else
      var t := Select(rows[1..], f);
      assert rows == [rows[0]] + rows[1..];
      if Matches(f, rows[0]) then
        assert UniqueIds(rows) ==> forall x :: x in t ==> x.id != rows[0].id;
        [rows[0]] + t
      else
        t
  }

  /** Inserts `x` in front of the first element it may precede. */
  function Insert(x: Entry, s: seq<Entry>): (r: seq<Entry>)
    ensures multiset(r) == multiset(s) + multiset{x}
    ensures forall y :: y in r <==> y == x || y in s
  {
    if s == [] then
      [x]
    else if Precedes(x, s[0]) then
      [x] + s
    else
      var t := Insert(x, s[1..]);
      assert s == [s[0]] + s[1..];
      [s[0]] + t
  }

  lemma {:induction false} InsertSorted(x: Entry, s: seq<Entry>)
    requires Sorted(s)
    ensures Sorted(Insert(x, s))
  {
    if s != [] {
      if Precedes(x, s[0]) {
        forall j | 0 <= j < |s| ensures Precedes(x, s[j]) {
          if j > 0 { PrecedesTransitive(x, s[0], s[j]); }
        }
        assert Sorted([x] + s);
      } else {
        PrecedesTotal(x, s[0]);
        InsertSorted(x, s[1..]);
        var t := Insert(x, s[1..]);
        forall j | 0 <= j < |t| ensures Precedes(s[0], t[j]) {
          assert t[j] in t;
        }
        assert Sorted([s[0]] + t);
      }
    }
  }

  lemma {:induction false} InsertUnique(x: Entry, s: seq<Entry>)
    requires UniqueIds(s) && forall y :: y in s ==> y.id != x.id
    ensures UniqueIds(Insert(x, s))
  {
    if s != [] && !Precedes(x, s[0]) {
      InsertUnique(x, s[1..]);
      var t := Insert(x, s[1..]);
      forall j | 0 <= j < |t| ensures s[0].id != t[j].id {
        assert t[j] in t;
      }
      assert UniqueIds([s[0]] + t);
    }
  }

  /** Insertion sort by `Precedes`: a sorted permutation of `s`. */
  function Sort(s: seq<Entry>): (r: seq<Entry>)
    ensures Sorted(r)
    ensures multiset(r) == multiset(s)
    ensures forall y :: y in r <==> y in s
    ensures UniqueIds(s) ==> UniqueIds(r)
  {
    if s == [] then
      []
    else
      var t := Sort(s[1..]);
      assert s == [s[0]] + s[1..];
      InsertSorted(s[0], t);
      if UniqueIds(s) then
        InsertUnique(s[0], t);
        Insert(s[0], t)
      else
        Insert(s[0], t)
  }

  /** `LIMIT limit OFFSET offset` on an ordered result. */
  function Page<T>(s: seq<T>, limit: nat, offset: nat): (r: seq<T>)
    ensures |r| == if offset >= |s| then 0 else Min(limit, |s| - offset)
    ensures forall k :: 0 <= k < |r| ==> r[k] == s[offset + k]
  {
    if offset >= |s| then [] else s[offset..Min(offset + limit, |s|)]
  }

  /** The whole ordered match list: every matching row once, date descending, then id descending. */
  function Ordered(rows: seq<Entry>, f: FilterParams): (r: seq<Entry>)
    ensures forall x :: x in r <==> x in rows && Matches(f, x)
    ensures Sorted(r)
    ensures UniqueIds(rows) ==> UniqueIds(r) && StrictlySorted(r)
  {
    var r := Sort(Select(rows, f));
    SortedUniqueIsStrict(r);
    r
  }

  /**
   * `list_entries`: the page at `offset` of at most `limit` matching rows,
   * in listing order.  `rows` is the table in any scan order.
   */
  function ListEntries(rows: seq<Entry>, f: FilterParams, limit: nat := DefaultLimit, offset: nat := DefaultOffset): (r: seq<Entry>)
    ensures r == Page(Ordered(rows, f), limit, offset)
    ensures forall x :: x in r ==> x in rows && Matches(f, x)
    ensures Sorted(r)
    ensures UniqueIds(rows) ==> StrictlySorted(r)
    ensures |r| <= limit
  {
    var s := Ordered(rows, f);
    var r := Page(s, limit, offset);
    assert forall x :: x in r ==> x in s;
    r
  }

  /** An absent, `None` or empty criterion constrains nothing; with none at all every row matches. */
  lemma FalsyCriteriaIgnored(f: FilterParams, e: Entry)
    ensures Matches(FilterParams(), e)
    ensures Matches(f.(status := Some("")), e) == Matches(f.(status := None), e)
    ensures Matches(f.(kind := Some("")), e) == Matches(f.(kind := None), e)
    ensures Matches(f.(category := Some("")), e) == Matches(f.(category := None), e)
    ensures Matches(f.(subcategory := Some("")), e) == Matches(f.(subcategory := None), e)
  {
  }

  /** Two strictly ordered sequences with the same elements are the same sequence. */
  lemma {:induction false} StrictlySortedUnique(a: seq<Entry>, b: seq<Entry>)
    requires StrictlySorted(a) && StrictlySorted(b)
    requires forall x :: x in a <==> x in b
    ensures a == b
  {
    assert a != [] ==> a[0] in a;
    assert b != [] ==> b[0] in b;
    if a != [] && b != [] {
      var i :| 0 <= i < |a| && a[i] == b[0];
      var j :| 0 <= j < |b| && b[j] == a[0];
      LtIsStrictTotalOrder(a[0].data.date, b[0].data.date, a[0].data.date);
      assert a[0] == b[0];
      forall x ensures x in a[1..] <==> x in b[1..] {
        if x in a[1..] {
          var k :| 0 <= k < |a[1..]| && a[1..][k] == x;
          assert Before(a[0], a[k + 1]);
          LtIsStrictTotalOrder(a[0].data.date, a[0].data.date, a[0].data.date);
          assert x in b;
        }
        if x in b[1..] {
          var k :| 0 <= k < |b[1..]| && b[1..][k] == x;
          assert Before(b[0], b[k + 1]);
          LtIsStrictTotalOrder(b[0].data.date, b[0].data.date, b[0].data.date);
          assert x in a;
        }
      }
      StrictlySortedUnique(a[1..], b[1..]);
      assert a == [a[0]] + a[1..] && b == [b[0]] + b[1..];
    }
  }

  /**
   * The listing does not depend on the order in which the table is
   * scanned: the id tie-break makes every page deterministic.
   */
  lemma ListingDeterministic(rows1: seq<Entry>, rows2: seq<Entry>, f: FilterParams, limit: nat, offset: nat)
    requires UniqueIds(rows1) && UniqueIds(rows2)
    requires forall x :: x in rows1 <==> x in rows2
    ensures Ordered(rows1, f) == Ordered(rows2, f)
    ensures ListEntries(rows1, f, limit, offset) == ListEntries(rows2, f, limit, offset)
  {
    StrictlySortedUnique(Ordered(rows1, f), Ordered(rows2, f));
  }

  /** The pages at offsets 0, limit, 2 * limit, ..., (n - 1) * limit, concatenated. */
  function Pages<T>(s: seq<T>, limit: nat, n: nat): seq<T>
  {
    if n == 0 then [] else Pages(s, limit, n - 1) + Page(s, limit, (n - 1) * limit)
  }

  /** A page appended to everything before it reaches up to the page's end. */
  lemma PageExtends<T>(s: seq<T>, limit: nat, o: nat)
    ensures s[..Min(o, |s|)] + Page(s, limit, o) == s[..Min(o + limit, |s|)]
  {
  }

  /** The first `n` pages are exactly the first `n * limit` elements. */
  lemma {:induction false} PagesArePrefix<T>(s: seq<T>, limit: nat, n: nat)
    ensures Pages(s, limit, n) == s[..Min(n * limit, |s|)]
  {
    if n > 0 {
      PagesArePrefix(s, limit, n - 1);
      var o := (n - 1) * limit;
      assert o + limit == n * limit;
      PageExtends(s, limit, o);
    }
  }

  /**
   * Paging through with a valid `limit` until past the end yields every
   * match exactly once, in listing order: no duplicates and no gaps.
   * Page number `k` is `list_entries` at offset `k * limit`.
   */
  lemma PagesCoverMatches(rows: seq<Entry>, f: FilterParams, limit: nat, n: nat)
    requires limit >= 1 && n * limit >= |Ordered(rows, f)|
    ensures forall k: nat :: k < n ==> ListEntries(rows, f, limit, k * limit) == Page(Ordered(rows, f), limit, k * limit)
    ensures Pages(Ordered(rows, f), limit, n) == Ordered(rows, f)
    ensures forall x :: x in Pages(Ordered(rows, f), limit, n) <==> x in rows && Matches(f, x)
    ensures UniqueIds(rows) ==> UniqueIds(Pages(Ordered(rows, f), limit, n))
  {
    var s := Ordered(rows, f);
    PagesArePrefix(s, limit, n);
    assert s[..|s|] == s;
  }

  // =====================================================================
  // The table: rows keyed by id
  // =====================================================================

  /** Every row is stored under its own id. */
  predicate KeyedById(m: map<int, Entry>)
  {
    forall k :: k in m ==> m[k].id == k
  }

  /** The rows with ids in `[lo, hi)`, in ascending id order: a primary-key scan. */
  function Scan(m: map<int, Entry>, lo: int, hi: int): (r: seq<Entry>)
    requires KeyedById(m)
    ensures forall x :: x in r <==> lo <= x.id < hi && x.id in m && m[x.id] == x
    ensures forall i, j :: 0 <= i < j < |r| ==> r[i].id < r[j].id
    decreases hi - lo
  {
    if lo >= hi then
      []
    else
      var rest := Scan(m, lo + 1, hi);
      if lo in m then [m[lo]] + rest else rest
  }

  // =====================================================================
  // update_entry: the partial update
  // =====================================================================

  function Or<T>(o: Option<T>, default: T): T
  {
    if o.Some? then o.value else default
  }

  /** Overwrites exactly the fields `u` sets; every other field keeps its value. */
  function ApplyUpdate(b: EntryBase, u: EntryUpdate): EntryBase
  {
    EntryBase(
      Or(u.date, b.date), Or(u.status, b.status), Or(u.kind, b.kind),
      Or(u.category, b.category), Or(u.subcategory, b.subcategory),
      Or(u.amount, b.amount), Or(u.comment, b.comment))
  }

  /** The `for k, v in ...: setattr(entry, k, v)` loop, item by item. */
  function ApplyAll(b: EntryBase, items: seq<Assignment>): EntryBase
    decreases |items|
  {
    if items == [] then b else ApplyAll(SetAttr(b, items[0]), items[1..])
  }

  /** `u` with the fields before field number `k` unset. */
  function SetFrom(u: EntryUpdate, k: nat): EntryUpdate
  {
    EntryUpdate(
      if k <= 0 then u.date else None,
      if k <= 1 then u.status else None,
      if k <= 2 then u.kind else None,
      if k <= 3 then u.category else None,
      if k <= 4 then u.subcategory else None,
      if k <= 5 then u.amount else None,
      if k <= 6 then u.comment else None)
  }

  /** Setting field number `k` (if `u` sets it) moves the unset boundary from `k` to `k + 1`. */
  lemma SetFromStep(b: EntryBase, u: EntryUpdate, k: nat)
    requires k < 7
    ensures ApplyUpdate(ApplyAll(b, Item(u, k)), SetFrom(u, k + 1)) == ApplyUpdate(b, SetFrom(u, k))
  {
  }

  lemma ApplyAllConcat(b: EntryBase, s: seq<Assignment>, t: seq<Assignment>)
    ensures ApplyAll(b, s + t) == ApplyAll(ApplyAll(b, s), t)
    decreases |s|
  {
    if s != [] {
      assert (s + t)[0] == s[0] && (s + t)[1..] == s[1..] + t;
      ApplyAllConcat(SetAttr(b, s[0]), s[1..], t);
    } else {
      assert s + t == t;
    }
  }

  lemma {:induction false} ApplyDumpFrom(b: EntryBase, u: EntryUpdate, k: nat)
    requires k <= 7
    ensures ApplyAll(b, DumpFrom(u, k)) == ApplyUpdate(b, SetFrom(u, k))
    decreases 7 - k
  {
    if k < 7 {
      ApplyAllConcat(b, Item(u, k), DumpFrom(u, k + 1));
      ApplyDumpFrom(ApplyAll(b, Item(u, k)), u, k + 1);
      SetFromStep(b, u, k);
    } else {
      assert SetFrom(u, 7) == EntryUpdate();
    }
  }

  /** Setting the dumped items one after another is the field-wise overwrite. */
  lemma DumpAppliesUpdate(b: EntryBase, u: EntryUpdate)
    ensures ApplyAll(b, Dump(u)) == ApplyUpdate(b, u)
  {
    ApplyDumpFrom(b, u, 0);
    assert SetFrom(u, 0) == u;
  }

  /** Applying the same update twice is applying it once; the empty update changes nothing. */
  lemma ApplyUpdateIdempotent(b: EntryBase, u: EntryUpdate)
    ensures ApplyUpdate(ApplyUpdate(b, u), u) == ApplyUpdate(b, u)
    ensures ApplyUpdate(b, EntryUpdate()) == b
  {
  }

  /**
   * The body of `update_entry` on a fetched row: `setattr` for every item
   * of `model_dump(exclude_unset=True)`, in turn.
   */
  method Overwrite(b: EntryBase, u: EntryUpdate) returns (r: EntryBase)
    ensures r == ApplyUpdate(b, u)
  {
    r := b;
    var items := Dump(u);
    DumpAppliesUpdate(b, u);
    var i := 0;
    while i < |items|
      invariant 0 <= i <= |items|
      invariant ApplyAll(r, items[i..]) == ApplyUpdate(b, u)
    {
      assert items[i..][1..] == items[i + 1..];
      r := SetAttr(r, items[i]);
      i := i + 1;
    }
  }

  /** A valid update keeps the `amount_non_negative` constraint. */
  lemma ApplyUpdateKeepsAmount(b: EntryBase, u: EntryUpdate)
    requires AmountNonNegative(b) && ValidUpdate(u)
    ensures AmountNonNegative(ApplyUpdate(b, u))
  {
  }

  /**
   * As written, an update stores category and subcategory text as given:
   * untrimmed and without the 64-character bound that creation enforces.
   */
  lemma UpdateBypassesTextRules(b: EntryBase, s: string)
    requires |s| > MaxTextLength || !NoSurroundingSpace(s)
    ensures ValidUpdate(EntryUpdate(category := Some(s)))
    ensures ApplyUpdate(b, EntryUpdate(category := Some(s))).category == s
    ensures !(FitsColumns(ApplyUpdate(b, EntryUpdate(category := Some(s))))
              && NoSurroundingSpace(ApplyUpdate(b, EntryUpdate(category := Some(s))).category))
    ensures ValidUpdate(EntryUpdate(subcategory := Some(s)))
    ensures ApplyUpdate(b, EntryUpdate(subcategory := Some(s))).subcategory == s
    ensures !(FitsColumns(ApplyUpdate(b, EntryUpdate(subcategory := Some(s))))
              && NoSurroundingSpace(ApplyUpdate(b, EntryUpdate(subcategory := Some(s))).subcategory))
  {
  }

  /** As written, an update stores a comment of any length, past the 512 that creation enforces. */
  lemma UpdateBypassesCommentBound(b: EntryBase, c: string)
    requires |c| > MaxCommentLength
    ensures ValidUpdate(EntryUpdate(comment := Some(Some(c))))
    ensures ApplyUpdate(b, EntryUpdate(comment := Some(Some(c)))).comment == Some(c)
    ensures !FitsColumns(ApplyUpdate(b, EntryUpdate(comment := Some(Some(c)))))
  {
  }

  // =====================================================================
  // The store
  // =====================================================================

  /** The `entries` table and the id sequence that assigns primary keys. */
  class Store {
    var entries: map<int, Entry>
    var nextId: int

    /** Rows are keyed by their primary key, every id issued so far is below `nextId`, and `amount >= 0`. */
    ghost predicate Valid()
      reads this
    {
      && KeyedById(entries)
      && 1 <= nextId
      && (forall k :: k in entries ==> 1 <= k < nextId && AmountNonNegative(entries[k].data))
    }

    constructor ()
      ensures Valid()
      ensures entries == map[] && nextId == 1
    {
      entries := map[];
      nextId := 1;
    }

    /** `get_entry`: the row with that id, or `None`. */
    function Get(id: int): (r: Option<Entry>)
      reads this
      requires Valid()
      ensures r.Some? <==> id in entries
      ensures r.Some? ==> r.value == entries[id] && r.value.id == id
    {
      if id in entries then Some(entries[id]) else None
    }

    /** `create_entry`: stores `data` under a fresh id and returns the new row. */
    method Create(data: EntryBase) returns (e: Entry)
      requires Valid()
      requires AmountNonNegative(data)
      modifies this
      ensures Valid()
      ensures e.data == data && e.id == old(nextId)
      ensures forall k :: k in old(entries) ==> k < e.id
      ensures entries == old(entries)[e.id := e]
      ensures nextId == old(nextId) + 1
      ensures Get(e.id) == Some(e)
    {
      e := Entry(nextId, data);
      entries := entries[nextId := e];
      nextId := nextId + 1;
    }

    /** `update_entry`: overwrites the fields `u` sets, or returns `None` if there is no such row. */
    method Update(id: int, u: EntryUpdate) returns (r: Option<Entry>)
      requires Valid()
      requires ValidUpdate(u)
      modifies this
      ensures Valid()
      ensures nextId == old(nextId)
      ensures id !in old(entries) ==> r == None && entries == old(entries)
      ensures id in old(entries) ==>
        && r == Some(Entry(id, ApplyUpdate(old(entries)[id].data, u)))
        && entries == old(entries)[id := r.value]
    {
      if id !in entries {
        return None;
      }
      var entry := Overwrite(entries[id].data, u);
      ApplyUpdateKeepsAmount(entries[id].data, u);
      var e := Entry(id, entry);
      entries := entries[id := e];
      r := Some(e);
    }

    /** `delete_entry`: removes the row and answers `true`, or answers `false` if there is none. */
    method Delete(id: int) returns (ok: bool)
      requires Valid()
      modifies this
      ensures Valid()
      ensures ok <==> id in old(entries)
      ensures !ok ==> entries == old(entries)
      ensures entries == old(entries) - {id}
      ensures nextId == old(nextId)
      ensures Get(id) == None
    {
      if id !in entries {
        return false;
      }
      entries := entries - {id};
      return true;
    }

    /** The whole table, scanned in primary-key order. */
    function Rows(): (r: seq<Entry>)
      reads this
      requires Valid()
      ensures forall x :: x in r <==> x.id in entries && entries[x.id] == x
      ensures UniqueIds(r)
    {
      Scan(entries, 1, nextId)
    }

    /** `list_entries` over the stored rows. */
    function List(f: FilterParams, limit: nat, offset: nat): (r: seq<Entry>)
      reads this
      requires Valid()
      ensures r == Page(Ordered(Rows(), f), limit, offset)
      ensures forall x :: x in r ==> x.id in entries && entries[x.id] == x && Matches(f, x)
      ensures StrictlySorted(r)
      ensures |r| <= limit
    {
      ListEntries(Rows(), f, limit, offset)
    }
  }

  /** Whatever order the rows are scanned in, the store lists the same page. */
  lemma ScanOrderIrrelevant(s: Store, rows: seq<Entry>, f: FilterParams, limit: nat, offset: nat)
    requires s.Valid()
    requires UniqueIds(rows)
    requires forall x :: x in rows <==> x.id in s.entries && s.entries[x.id] == x
    ensures ListEntries(rows, f, limit, offset) == s.List(f, limit, offset)
  {
    ListingDeterministic(rows, s.Rows(), f, limit, offset);
  }

  /** The create / read / update / delete cycle of the API test, against the store's contracts. */
  method CrudCycle()
  {
    var store := new Store();
    var payload := EntryBase(Date(2025, 1, 1), Business, Income, "DevOps", "Servers", 100000, Some("Income test"));
    StripKeepsStripped("DevOps");
    StripKeepsStripped("Servers");
    var data := ValidateCreate(payload);
    assert data == Some(payload);

    var e := store.Create(data.value);
    assert store.Get(e.id) == Some(e);

    var patch := EntryUpdate(amount := Some(123400));
    var updated := store.Update(e.id, patch);
    assert updated.Some? && updated.value.data.amount == 123400;
    assert updated.value.data.category == "DevOps";
    var again := store.Update(e.id, patch);
    assert again == updated;

    var ok := store.Delete(e.id);
    assert ok && store.Get(e.id) == None;
    ok := store.Delete(e.id);
    assert !ok;
  }
}
