/**
 * One sales record and its normalisation (the head of the loop body of
 * `analyze_tshirts`): numeric conversion of `amount` and `quantity` with
 * their defaults, and the grouping keys `size`, `color` and `design`.
 */
module Rows {
  import opened Wrappers
  import opened Casing

  /** A row as the CSV reader produces it: field name to text. */
  type Row = map<string, string>

  /**
   * Python's `float()` and `int()` on text, kept abstract: `None` stands
   * for the `ValueError` a malformed string raises.
   */
  datatype Parsers = Parsers(parseFloat: string -> Option<real>, parseInt: string -> Option<int>)

  /** Which conversion failed; `amount` is converted first. */
  datatype NumericField = Amount | Quantity

  /** A row after normalisation. */
  datatype Sale = Sale(amount: real, quantity: int, size: string, color: string, design: string)

  datatype Normalized = Accepted(sale: Sale) | Rejected(field: NumericField)

  /** `row.get(key)` is truthy: the field is present and not the empty string. */
  predicate HasValue(row: Row, key: string)
  {
    key in row && row[key] != ""
  }

  /** `row.get(key, default)`. */
  function GetOr(row: Row, key: string, default: string): string
  {
    if key in row then row[key] else default
  }

  /** A present, non-empty numeric field whose text does not convert. */
  predicate FloatFails(p: Parsers, row: Row, key: string)
  {
    HasValue(row, key) && p.parseFloat(row[key]).None?
  }

  predicate IntFails(p: Parsers, row: Row, key: string)
  {
    HasValue(row, key) && p.parseInt(row[key]).None?
  }

  /**
   * Normalises one row. `amount` defaults to 0 and `quantity` to 1 when
   * missing or empty; `size` is upper-cased, `color` title-cased and
   * `design` kept verbatim, each defaulting to "Unknown" only when missing.
   * A failed conversion rejects the whole row.
   */
  function NormalizeRow(p: Parsers, row: Row): (r: Normalized)
    ensures r.Rejected? <==> FloatFails(p, row, "amount") || IntFails(p, row, "quantity")
    ensures r.Rejected? ==> (r.field == Amount <==> FloatFails(p, row, "amount"))
  {
    var amount := if HasValue(row, "amount") then p.parseFloat(row["amount"]) else Some(0.0);
    var quantity := if HasValue(row, "quantity") then p.parseInt(row["quantity"]) else Some(1);
    if amount.None? then Rejected(Amount)
    else if quantity.None? then Rejected(Quantity)
    else
      Accepted(Sale(amount.value, quantity.value,
                    Upper(GetOr(row, "size", "Unknown")),
                    Title(GetOr(row, "color", "Unknown")),
                    GetOr(row, "design", "Unknown")))
  }

  /** A missing or empty amount counts as zero revenue; the row is still accepted. */
  lemma AmountDefault(p: Parsers, row: Row)
    requires !HasValue(row, "amount") && !IntFails(p, row, "quantity")
    ensures NormalizeRow(p, row).Accepted?
    ensures NormalizeRow(p, row).sale.amount == 0.0
  {
  }

  /** A missing or empty quantity counts as one item. */
  lemma QuantityDefault(p: Parsers, row: Row)
    requires !FloatFails(p, row, "amount") && !HasValue(row, "quantity")
    ensures NormalizeRow(p, row).Accepted?
    ensures NormalizeRow(p, row).sale.quantity == 1
  {
  }

  /** Present, non-empty numeric fields contribute their converted values. */
  lemma ConvertedValues(p: Parsers, row: Row)
    requires NormalizeRow(p, row).Accepted?
    ensures HasValue(row, "amount") ==> Some(NormalizeRow(p, row).sale.amount) == p.parseFloat(row["amount"])
    ensures HasValue(row, "quantity") ==> Some(NormalizeRow(p, row).sale.quantity) == p.parseInt(row["quantity"])
  {
  }

  /** Missing keys: size "UNKNOWN", color and design "Unknown"; design is never re-cased. */
  lemma KeyDefaults(p: Parsers, row: Row)
    requires NormalizeRow(p, row).Accepted?
    ensures "size" !in row ==> NormalizeRow(p, row).sale.size == "UNKNOWN"
    ensures "color" !in row ==> NormalizeRow(p, row).sale.color == "Unknown"
    ensures NormalizeRow(p, row).sale.design == if "design" in row then row["design"] else "Unknown"
  {
    DefaultKeys();
  }

  /**
   * Two accepted rows fall into the same size group exactly when their
   * sizes (or defaults) differ only in letter case, and likewise for color.
   */
  lemma CaseInsensitiveKeys(p: Parsers, a: Row, b: Row)
    requires NormalizeRow(p, a).Accepted? && NormalizeRow(p, b).Accepted?
    ensures NormalizeRow(p, a).sale.size == NormalizeRow(p, b).sale.size
            <==> EqualIgnoringCase(GetOr(a, "size", "Unknown"), GetOr(b, "size", "Unknown"))
    ensures NormalizeRow(p, a).sale.color == NormalizeRow(p, b).sale.color
            <==> EqualIgnoringCase(GetOr(a, "color", "Unknown"), GetOr(b, "color", "Unknown"))
  {
    UpperMergesCase(GetOr(a, "size", "Unknown"), GetOr(b, "size", "Unknown"));
    TitleMergesCase(GetOr(a, "color", "Unknown"), GetOr(b, "color", "Unknown"));
  }
}
