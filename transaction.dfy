/**
 * The `Transaction` table: an auto-increment id, a required amount, two enumerated columns and a
 * required date; `userId` is the foreign key the association to `User` adds.
 */
module TransactionModel {
  import opened Wrappers

  /** The `category` enumeration. */
  datatype Category = Food | Transport | Entertainment | Utilities | Other

  /** The `type` enumeration (`type` is a Dafny keyword, hence `Kind`). */
  datatype Kind = Income | Expense

  function CategoryName(c: Category): string
  {
    match c
    case Food => "food"
    case Transport => "transport"
    case Entertainment => "entertainment"
    case Utilities => "utilities"
    case Other => "other"
  }

  function KindName(k: Kind): string
  {
    match k
    case Income => "income"
    case Expense => "expense"
  }

  /** The database's reading of a `category` value: one of the five names, or a rejection. */
  function ParseCategory(s: string): (c: Option<Category>)
    ensures c.Some? ==> CategoryName(c.value) == s
    ensures c.None? ==> s !in {"food", "transport", "entertainment", "utilities", "other"}
  {
    if s == "food" then Some(Food)
    else if s == "transport" then Some(Transport)
    else if s == "entertainment" then Some(Entertainment)
    else if s == "utilities" then Some(Utilities)
    else if s == "other" then Some(Other)
    else None
  }

  /** The database's reading of a `type` value. */
  function ParseKind(s: string): (k: Option<Kind>)
    ensures k.Some? ==> KindName(k.value) == s
    ensures k.None? ==> s != "income" && s != "expense"
  {
    if s == "income" then Some(Income) else if s == "expense" then Some(Expense) else None
  }

  /** Every enumeration value is read back from its own name. */
  lemma ParseNames(c: Category, k: Kind)
    ensures ParseCategory(CategoryName(c)) == Some(c)
    ensures ParseKind(KindName(k)) == Some(k)
  {
  }

  /** One row. The FLOAT amount is an abstract real; the date is kept as the text the client sent. */
  datatype Transaction = Transaction(
    id: nat,
    amount: real,
    category: Category,
    kind: Kind,
    date: string,
    userId: nat)

  /** A JSON `amount`: a number, or a string the database may read as a FLOAT (`"12.5"`, `"0"`). */
  datatype Amount = Number(n: real) | Text(s: string)

  /** The four columns a request supplies, as read from its JSON body (absent fields are `None`). */
  datatype Request = Request(
    amount: Option<Amount>,
    category: Option<string>,
    kind: Option<string>,
    date: Option<string>)

  /** The columns once the database has accepted them. */
  datatype Columns = Columns(amount: real, category: Category, kind: Kind, date: string)

  /**
   * The database's reading of an amount: a number as it is, a string through `asFloat` (the FLOAT
   * validator, which refuses text that is not a number).
   */
  function AmountValue(a: Amount, asFloat: string -> Option<real>): (v: Option<real>)
    ensures a.Number? ==> v == Some(a.n)
    ensures a.Text? ==> v == asFloat(a.s)
  {
    match a
    case Number(n) => Some(n)
    case Text(s) => asFloat(s)
  }

  /**
   * What saving the request's values yields: every column is NOT NULL, the amount must read as a
   * FLOAT, the enumerated ones must name a member, and the date must be a non-empty text that
   * `isDate` (the DATE validator) accepts. An amount of 0 is a valid FLOAT.
   */
  function Validate(req: Request, asFloat: string -> Option<real>, isDate: string -> bool): (cols: Option<Columns>)
    ensures cols.Some? <==>
              && req.amount.Some? && AmountValue(req.amount.value, asFloat).Some?
              && req.category.Some? && req.kind.Some? && Truthy(req.date) && isDate(req.date.value)
              && ParseCategory(req.category.value).Some? && ParseKind(req.kind.value).Some?
    ensures cols.Some? ==>
              && Some(cols.value.amount) == AmountValue(req.amount.value, asFloat)
              && CategoryName(cols.value.category) == req.category.value
              && KindName(cols.value.kind) == req.kind.value
              && cols.value.date == req.date.value
  {
    if req.amount.None? || req.category.None? || req.kind.None? || !Truthy(req.date) then None
    else if !isDate(req.date.value) then None
    else
      match (AmountValue(req.amount.value, asFloat), ParseCategory(req.category.value), ParseKind(req.kind.value))
      case (Some(x), Some(c), Some(k)) => Some(Columns(x, c, k, req.date.value))
      case _ => None
  }
}
