/**
 * The `entries` table (app/models.py): one row per entry, the row's
 * column capacities and its `amount_non_negative` check constraint.
 */
module Models {
  import opened Schemas

  const TagColumnLength := 32
  const TextColumnLength := 64
  const CommentColumnLength := 512

  /**
   * A row of `entries`.  `id` is the primary key; `data` holds the other
   * columns, so an `Entry` has the fields of `EntryOut`: those of
   * `EntryBase` plus an integer `id`.
   */
  datatype Entry = Entry(id: int, data: EntryBase)

  /** `CheckConstraint("amount >= 0", name="amount_non_negative")` */
  predicate AmountNonNegative(b: EntryBase)
  {
    b.amount >= 0
  }

  /** The declared capacities: `String(32)`, `String(64)`, `String(512)`, a nullable comment. */
  predicate FitsColumns(b: EntryBase)
  {
    && |StatusName(b.status)| <= TagColumnLength
    && |KindName(b.kind)| <= TagColumnLength
    && |b.category| <= TextColumnLength
    && |b.subcategory| <= TextColumnLength
    && (b.comment.Some? ==> |b.comment.value| <= CommentColumnLength)
  }

  /** What a validated create payload stores meets every column constraint. */
  lemma ValidatedFitsColumns(p: EntryBase)
    requires ValidateCreate(p).Some?
    ensures FitsColumns(ValidateCreate(p).value)
    ensures AmountNonNegative(ValidateCreate(p).value)
  {
  }

  /** `setattr(entry, k, v)` for one dumped update item. */
  function SetAttr(b: EntryBase, a: Assignment): EntryBase
  {
    match a
    case SetDate(d) => b.(date := d)
    case SetStatus(s) => b.(status := s)
    case SetKind(k) => b.(kind := k)
    case SetCategory(s) => b.(category := s)
    case SetSubcategory(s) => b.(subcategory := s)
    case SetAmount(n) => b.(amount := n)
    case SetComment(c) => b.(comment := c)
  }
}
