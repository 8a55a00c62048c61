/**
 * Request payloads and their validation rules (app/schemas.py).
 *
 * Inputs arrive already typed: a date is a `Date`, an amount is a whole
 * number of cents, and `status` and `type` are the closed enumerations
 * below.  `ParseStatus` and `ParseKind` say which wire strings those
 * enumerations accept.
 */
module Schemas {
  import opened Wrappers
  import opened Dates

  /** `Status = Literal["business", "personal", "tax"]` */
  datatype Status = Business | Personal | Tax

  /** `Type = Literal["income", "expense"]` (`type` is a Dafny keyword, hence `Kind`). */
  datatype Kind = Income | Expense

  function StatusName(s: Status): string
  {
    match s
    case Business => "business"
    case Personal => "personal"
    case Tax => "tax"
  }

  function KindName(k: Kind): string
  {
    match k
    case Income => "income"
    case Expense => "expense"
  }

  /** A status string is accepted exactly when it is one of the three literals. */
  function ParseStatus(s: string): (r: Option<Status>)
    ensures r.Some? <==> s == "business" || s == "personal" || s == "tax"
    ensures r.Some? ==> StatusName(r.value) == s
  {
    if s == "business" then Some(Business)
    else if s == "personal" then Some(Personal)
    else if s == "tax" then Some(Tax)
    else None
  }

  /** A type string is accepted exactly when it is one of the two literals. */
  function ParseKind(s: string): (r: Option<Kind>)
    ensures r.Some? <==> s == "income" || s == "expense"
    ensures r.Some? ==> KindName(r.value) == s
  {
    if s == "income" then Some(Income)
    else if s == "expense" then Some(Expense)
    else None
  }

  lemma ParseStatusName(st: Status)
    ensures ParseStatus(StatusName(st)) == Some(st)
  {
  }

  lemma ParseKindName(k: Kind)
    ensures ParseKind(KindName(k)) == Some(k)
  {
  }

  // ---------------------------------------------------------------------
  // strip_spaces: Python's `str.strip()` with no argument
  // ---------------------------------------------------------------------

  /** The characters for which Python's `str.isspace()` holds. */
  predicate IsSpace(c: char)
  {
    ('\U{0009}' <= c <= '\U{000D}')
    || ('\U{001C}' <= c <= '\U{0020}')
    || c == '\U{0085}' || c == '\U{00A0}' || c == '\U{1680}'
    || ('\U{2000}' <= c <= '\U{200A}')
    || c == '\U{2028}' || c == '\U{2029}' || c == '\U{202F}'
    || c == '\U{205F}' || c == '\U{3000}'
  }

  predicate AllSpace(s: string)
  {
    forall i :: 0 <= i < |s| ==> IsSpace(s[i])
  }

  /** No whitespace at either end: what `strip()` leaves behind. */
  predicate NoSurroundingSpace(s: string)
  {
    s == [] || (!IsSpace(s[0]) && !IsSpace(s[|s| - 1]))
  }

  /** `r` is `s` less the whitespace run `s[..i]` in front and a whitespace run behind. */
  predicate Surrounds(s: string, r: string, i: int)
  {
    && 0 <= i && i + |r| <= |s| && s[i..i + |r|] == r
    && (forall k :: 0 <= k < i ==> IsSpace(s[k]))
    && (forall k :: i + |r| <= k < |s| ==> IsSpace(s[k]))
  }

  /** The length of the leading whitespace run (what `s.lstrip()` removes). */
  function Lead(s: string): (n: nat)
    ensures n <= |s|
    ensures forall k :: 0 <= k < n ==> IsSpace(s[k])
    ensures n < |s| ==> !IsSpace(s[n])
  {
    if s != [] && IsSpace(s[0]) then
      var m := Lead(s[1..]);
      assert forall k :: 1 <= k < 1 + m ==> s[k] == s[1..][k - 1];
      1 + m
    else
      0
  }

  /** The length of the trailing whitespace run (what `s.rstrip()` removes). */
  function Trail(s: string): (n: nat)
    ensures n <= |s|
    ensures forall k :: |s| - n <= k < |s| ==> IsSpace(s[k])
    ensures n < |s| ==> !IsSpace(s[|s| - 1 - n])
  {
    if s != [] && IsSpace(s[|s| - 1]) then
      var m := Trail(s[..|s| - 1]);
      assert forall k :: |s| - 1 - m <= k < |s| - 1 ==> s[k] == s[..|s| - 1][k];
      1 + m
    else
      0
  }

  /** Unless `s` is all whitespace, the two runs do not meet. */
  lemma RunsApart(s: string)
    requires Lead(s) < |s|
    ensures Lead(s) + Trail(s) < |s|
  {
  }

  /** `s.strip()`: removes leading and trailing whitespace and nothing else. */
  function Strip(s: string): (r: string)
    ensures NoSurroundingSpace(r)
    ensures |r| <= |s|
    ensures Surrounds(s, r, Lead(s))
    ensures r == [] <==> AllSpace(s)
  {
    if Lead(s) == |s| then
      []
    else
      RunsApart(s);
      s[Lead(s)..|s| - Trail(s)]
  }

  /** A string without surrounding whitespace is left as it is. */
  lemma StripKeepsStripped(s: string)
    requires NoSurroundingSpace(s)
    ensures Strip(s) == s
  {
  }

  /** Stripping twice is stripping once. */
  lemma StripIdempotent(s: string)
    ensures Strip(Strip(s)) == Strip(s)
  {
  }

  // ---------------------------------------------------------------------
  // EntryBase / EntryCreate: the create payload
  // ---------------------------------------------------------------------

  const MaxTextLength := 64
  const MaxCommentLength := 512

  /**
   * The fields of an entry.  Before validation `category` and
   * `subcategory` are the raw strings; after `ValidateCreate` they are
   * stripped.  `amount` is in cents.
   */
  datatype EntryBase = EntryBase(
    date: Date,
    status: Status,
    kind: Kind,
    category: string,
    subcategory: string,
    amount: int,
    comment: Option<string> := None)

  /** `Field(..., min_length=1, max_length=64)`, checked on the raw, unstripped string. */
  predicate ValidText(s: string)
  {
    1 <= |s| <= MaxTextLength
  }

  /** `Field(None, max_length=512)` */
  predicate ValidComment(c: Option<string>)
  {
    c.Some? ==> |c.value| <= MaxCommentLength
  }

  /** Every field constraint of `EntryBase`, on the raw payload. */
  predicate ValidCreate(p: EntryBase)
  {
    ValidText(p.category) && ValidText(p.subcategory) && p.amount >= 0 && ValidComment(p.comment)
  }

  /**
   * Validation of a create payload: the length bounds are checked first,
   * then `strip_spaces` rewrites category and subcategory.  `None` is a
   * validation error.
   */
  function ValidateCreate(p: EntryBase): (r: Option<EntryBase>)
    ensures r.Some? <==> ValidCreate(p)
    ensures r.Some? ==>
      && r.value.date == p.date && r.value.status == p.status && r.value.kind == p.kind
      && r.value.amount == p.amount && r.value.comment == p.comment
      && r.value.category == Strip(p.category) && r.value.subcategory == Strip(p.subcategory)
    ensures r.Some? ==>
      && NoSurroundingSpace(r.value.category) && |r.value.category| <= MaxTextLength
      && NoSurroundingSpace(r.value.subcategory) && |r.value.subcategory| <= MaxTextLength
      && r.value.amount >= 0 && ValidComment(r.value.comment)
  {
    if ValidCreate(p) then
      Some(p.(category := Strip(p.category), subcategory := Strip(p.subcategory)))
    else
      None
  }

  /**
   * As written, an all-whitespace category passes `min_length=1` (checked
   * before stripping) and is stored as the empty string.
   */
  lemma BlankCategoryIsAccepted(p: EntryBase)
    requires p.category == "   " && ValidText(p.subcategory) && p.amount >= 0 && ValidComment(p.comment)
    ensures ValidateCreate(p).Some? && ValidateCreate(p).value.category == ""
  {
  }

  // ---------------------------------------------------------------------
  // EntryUpdate: the sparse update payload
  // ---------------------------------------------------------------------

  /**
   * Every field defaults to unset (`None`).  `comment` is the one column
   * that may be set to null, so it is `Some(None)` when explicitly nulled.
   * No trimming and no length bound apply here.
   */
  datatype EntryUpdate = EntryUpdate(
    date: Option<Date> := None,
    status: Option<Status> := None,
    kind: Option<Kind> := None,
    category: Option<string> := None,
    subcategory: Option<string> := None,
    amount: Option<int> := None,
    comment: Option<Option<string>> := None)

  /** The only constraint on an update: `amount: Optional[float] = Field(None, ge=0)`. */
  predicate ValidUpdate(u: EntryUpdate)
  {
    u.amount.Some? ==> u.amount.value >= 0
  }

  /** One `(field, value)` item of `model_dump(exclude_unset=True)`. */
  datatype Assignment =
    | SetDate(newDate: Date)
    | SetStatus(newStatus: Status)
    | SetKind(newKind: Kind)
    | SetCategory(newCategory: string)
    | SetSubcategory(newSubcategory: string)
    | SetAmount(newAmount: int)
    | SetComment(newComment: Option<string>)

  /** Position of an assignment's field in the declaration order of `EntryUpdate`. */
  function FieldIndex(a: Assignment): nat
  {
    match a
    case SetDate(_) => 0
    case SetStatus(_) => 1
    case SetKind(_) => 2
    case SetCategory(_) => 3
    case SetSubcategory(_) => 4
    case SetAmount(_) => 5
    case SetComment(_) => 6
  }

  /** `a` assigns a field that `u` sets, with the value `u` gives it. */
  predicate Carries(u: EntryUpdate, a: Assignment)
  {
    match a
    case SetDate(d) => u.date == Some(d)
    case SetStatus(s) => u.status == Some(s)
    case SetKind(k) => u.kind == Some(k)
    case SetCategory(s) => u.category == Some(s)
    case SetSubcategory(s) => u.subcategory == Some(s)
    case SetAmount(n) => u.amount == Some(n)
    case SetComment(c) => u.comment == Some(c)
  }

  /** The item `model_dump` emits for field number `k` (0 to 6): the field's value if it is set. */
  function Item(u: EntryUpdate, k: nat): (r: seq<Assignment>)
    requires k < 7
    ensures |r| <= 1
    ensures forall a :: a in r <==> Carries(u, a) && FieldIndex(a) == k
  {
    match k
    case 0 => if u.date.Some? then [SetDate(u.date.value)] else []
    case 1 => if u.status.Some? then [SetStatus(u.status.value)] else []
    case 2 => if u.kind.Some? then [SetKind(u.kind.value)] else []
    case 3 => if u.category.Some? then [SetCategory(u.category.value)] else []
    case 4 => if u.subcategory.Some? then [SetSubcategory(u.subcategory.value)] else []
    case 5 => if u.amount.Some? then [SetAmount(u.amount.value)] else []
    case 6 => if u.comment.Some? then [SetComment(u.comment.value)] else []
  }

  /** The items for fields `k` to 6, in order. */
  function DumpFrom(u: EntryUpdate, k: nat): (r: seq<Assignment>)
    requires k <= 7
    ensures forall a :: a in r <==> Carries(u, a) && FieldIndex(a) >= k
    ensures forall i, j :: 0 <= i < j < |r| ==> FieldIndex(r[i]) < FieldIndex(r[j])
    decreases 7 - k
  {
    if k == 7 then [] else Item(u, k) + DumpFrom(u, k + 1)
  }

  /**
   * `u.model_dump(exclude_unset=True).items()`: one item per field that
   * was set, in declaration order, and none for the unset ones.
   */
  function Dump(u: EntryUpdate): (r: seq<Assignment>)
    ensures forall a :: a in r <==> Carries(u, a)
    ensures forall i, j :: 0 <= i < j < |r| ==> FieldIndex(r[i]) < FieldIndex(r[j])
    ensures r == [] <==> u == EntryUpdate()
  {
    DumpFromEmpty(u);
    DumpFrom(u, 0)
  }

  lemma DumpFromEmpty(u: EntryUpdate)
    ensures DumpFrom(u, 0) == [] <==> u == EntryUpdate()
  {
  }
}
