/** The account records the dashboard loads from its spreadsheet, one per
    row, and the raw cell values some of their columns hold. */
module Records {
  import opened Wrappers

  /** A spreadsheet cell as pandas holds it: missing (NaN / NaT / None),
      a number, a piece of text, or a timestamp (as a day number, days
      since 1970-01-01). */
  datatype Cell = Blank | Num(x: real) | Text(s: string) | Day(d: int)

  /** One row of the loaded sheet; every field that may be empty is optional.
      Text columns hold the text pandas holds; `priority` is the text
      `astype(str)` renders for PRIORIDAD, `None` where the cell is empty. */
  datatype Account = Account(
    company: Option<string>,     // RAZON SOCIAL
    campaign: Option<string>,    // CAMPAÑA
    advisor: Option<string>,     // ASESOR
    priority: Option<string>,    // PRIORIDAD
    contact: Option<string>,     // CONTACTABILIDAD
    debt: Option<real>,          // DEUDA TOTAL
    adminFee: Option<real>,      // GASTOS ADMIN
    recPlanillas: Cell,          // REC. PLANILLAS
    recGastos: Cell,             // REC. GASTOS
    payDatePlanillas: Cell,      // FECHA DE PAGO P
    payDateGastos: Cell,         // FECHA DE PAGO G
    lastAction: Option<int>      // ULTIMA FECHA GESTION (a day number)
  )

  /** `astype(str)` of a text cell: a missing value renders as "nan". */
  function AsText(v: Option<string>): string {
    v.GetOr("nan")
  }

  /** An account is "managed" (barrido) when its last management date is present. */
  predicate Managed(a: Account) {
    a.lastAction.Some?
  }

  /** What a numeric cell contributes to a pandas column sum: missing counts as 0. */
  function CellAmount(c: Cell): real {
    if c.Num? then c.x else 0.0
  }
}
