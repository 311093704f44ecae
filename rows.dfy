/** The rows the queries return and the entries the dimension endpoints send
    back: a fixed table of renamed columns, nine of them trimmed. */
module Rows {
  import opened Wrappers
  import JsText

  /** A column value that is passed through untouched: SQL NULL, a number,
      or text. */
  datatype Value = Null | Number(n: real) | Text(s: string)

  /** One row of a dimension query: the journal-entry columns the handlers
      read from `GLJED.*`, then `GLJEDO.OPTFIELD` and
      `GLJEDO.VALUE AS OPTFIELD_VALUE` of the joined optional-field row.
      Columns that get trimmed are `Option<string>` (`None` for NULL); the
      amount is a DECIMAL column, a number or NULL. */
  datatype RawRow = RawRow(
    BATCHNBR: string, JOURNALID: Value, TRANSNBR: Value,
    AUDTDATE: Value, AUDTTIME: Value, AUDTUSER: Option<string>, AUDTORG: Option<string>,
    ACCTID: Option<string>, COMPANYID: Option<string>,
    TRANSAMT: Option<real>, TRANSQTY: Value,
    SCURNAMT: Value, SCURNCODE: Value, SCURNDEC: Value, HCURNCODE: Value,
    RATETYPE: Value, CONVRATE: Value, RATESPREAD: Value, DATEMTCHCD: Value, RATEOPER: Value,
    TRANSDESC: Option<string>, TRANSREF: Option<string>, TRANSDATE: Value,
    SRCELDGR: Value, SRCETYPE: Value, VALUES: Value, DESCOMP: Option<string>, ROUTE: Value,
    OPTFIELD: Option<string>, OPTFIELD_VALUE: Option<string>)

  /** One entry of a dimension endpoint's response. A trimmed field is
      `None` when its column is NULL: `?.trim()` gives `undefined` there, and
      the key is left out of the JSON. A pass-through field keeps `Null` and
      is sent as `null`. */
  datatype Entry = Entry(
    BatchNumber: string, JournalId: Value, TransactionNumber: Value,
    AuditDate: Value, AuditTime: Value, AuditUser: Option<string>, AuditOrg: Option<string>,
    AccountId: Option<string>, CompanyId: Option<string>,
    TransactionAmount: Option<real>, TransactionQuantity: Value,
    SourceCurrencyAmount: Value, SourceCurrencyCode: Value, SourceCurrencyDecimal: Value,
    HomeCurrencyCode: Value, RateType: Value, ConversionRate: Value, RateSpread: Value,
    MatchDateCode: Value, RateOperation: Value,
    TransactionDescription: Option<string>, TransactionReference: Option<string>,
    TransactionDate: Value, SourceLedger: Value, SourceType: Value, Values: Value,
    DepartmentComponent: Option<string>, Route: Value,
    OptionalField: Option<string>, OptionalFieldValue: Option<string>)

  /** `src?.trim()`: a missing value stays missing, a present one is
      trimmed. */
  function TrimOpt(src: Option<string>): (out: Option<string>)
    ensures out.None? <==> src.None?
    ensures out.Some? ==> JsText.NoEdgeWhitespace(out.value) && |out.value| <= |src.value|
    ensures out.Some? ==> JsText.IsTrimmingOf(out.value, src.value)
  {
    if src.None? then None else Some(JsText.Trim(src.value))
  }

  /** `out` is `src` with its edge whitespace cut off; a NULL column gives
      an absent field (`undefined`). */
  ghost predicate TrimmedFrom(out: Option<string>, src: Option<string>) {
    && (out.None? <==> src.None?)
    && (src.Some? ==> JsText.IsTrimmingOf(out.value, src.value))
  }

  /** The rename table: each output field comes from its column, the nine
      text columns trimmed and the others as they are. */
  ghost predicate ShapedFrom(e: Entry, r: RawRow) {
    && e.BatchNumber == r.BATCHNBR
    && e.JournalId == r.JOURNALID
    && e.TransactionNumber == r.TRANSNBR
    && e.AuditDate == r.AUDTDATE
    && e.AuditTime == r.AUDTTIME
    && TrimmedFrom(e.AuditUser, r.AUDTUSER)
    && TrimmedFrom(e.AuditOrg, r.AUDTORG)
    && TrimmedFrom(e.AccountId, r.ACCTID)
    && TrimmedFrom(e.CompanyId, r.COMPANYID)
    && e.TransactionAmount == r.TRANSAMT
    && e.TransactionQuantity == r.TRANSQTY
    && e.SourceCurrencyAmount == r.SCURNAMT
    && e.SourceCurrencyCode == r.SCURNCODE
    && e.SourceCurrencyDecimal == r.SCURNDEC
    && e.HomeCurrencyCode == r.HCURNCODE
    && e.RateType == r.RATETYPE
    && e.ConversionRate == r.CONVRATE
    && e.RateSpread == r.RATESPREAD
    && e.MatchDateCode == r.DATEMTCHCD
    && e.RateOperation == r.RATEOPER
    && TrimmedFrom(e.TransactionDescription, r.TRANSDESC)
    && TrimmedFrom(e.TransactionReference, r.TRANSREF)
    && e.TransactionDate == r.TRANSDATE
    && e.SourceLedger == r.SRCELDGR
    && e.SourceType == r.SRCETYPE
    && e.Values == r.VALUES
    && TrimmedFrom(e.DepartmentComponent, r.DESCOMP)
    && e.Route == r.ROUTE
    && TrimmedFrom(e.OptionalField, r.OPTFIELD)
    && TrimmedFrom(e.OptionalFieldValue, r.OPTFIELD_VALUE)
  }

  /** The `recordset.map` callback: total on every row, it never fails on a
      NULL. */
  function Shape(r: RawRow): (e: Entry)
    ensures ShapedFrom(e, r)
  {
    Entry(
      r.BATCHNBR, r.JOURNALID, r.TRANSNBR,
      r.AUDTDATE, r.AUDTTIME, TrimOpt(r.AUDTUSER), TrimOpt(r.AUDTORG),
      TrimOpt(r.ACCTID), TrimOpt(r.COMPANYID),
      r.TRANSAMT, r.TRANSQTY,
      r.SCURNAMT, r.SCURNCODE, r.SCURNDEC, r.HCURNCODE,
      r.RATETYPE, r.CONVRATE, r.RATESPREAD, r.DATEMTCHCD, r.RATEOPER,
      TrimOpt(r.TRANSDESC), TrimOpt(r.TRANSREF), r.TRANSDATE,
      r.SRCELDGR, r.SRCETYPE, r.VALUES, TrimOpt(r.DESCOMP), r.ROUTE,
      TrimOpt(r.OPTFIELD), TrimOpt(r.OPTFIELD_VALUE))
  }

  lemma TrimmedFromUnique(out: Option<string>, src: Option<string>)
    requires TrimmedFrom(out, src)
    ensures out == TrimOpt(src)
  {
    if src.Some? {
      JsText.TrimUnique(src.value, out.value);
    }
  }

  /** The rename table determines the entry: `Shape` is the only mapping
      that meets it. */
  lemma ShapeUnique(e: Entry, r: RawRow)
    requires ShapedFrom(e, r)
    ensures e == Shape(r)
  {
    TrimmedFromUnique(e.AuditUser, r.AUDTUSER);
    TrimmedFromUnique(e.AuditOrg, r.AUDTORG);
    TrimmedFromUnique(e.AccountId, r.ACCTID);
    TrimmedFromUnique(e.CompanyId, r.COMPANYID);
    TrimmedFromUnique(e.TransactionDescription, r.TRANSDESC);
    TrimmedFromUnique(e.TransactionReference, r.TRANSREF);
    TrimmedFromUnique(e.DepartmentComponent, r.DESCOMP);
    TrimmedFromUnique(e.OptionalField, r.OPTFIELD);
    TrimmedFromUnique(e.OptionalFieldValue, r.OPTFIELD_VALUE);
  }

  /** `recordset.map(...)`: one entry per row, in the same order. */
  function ShapeAll(rows: seq<RawRow>): (es: seq<Entry>)
    ensures |es| == |rows|
    ensures forall i :: 0 <= i < |rows| ==> ShapedFrom(es[i], rows[i])
  {
    seq(|rows|, i requires 0 <= i < |rows| => Shape(rows[i]))
  }

  /** Shaping commutes with taking a slice, so it does not matter whether the
      page is cut before or after the rows are shaped. */
  lemma ShapeAllSlice(rows: seq<RawRow>, lo: int, hi: int)
    requires 0 <= lo <= hi <= |rows|
    ensures ShapeAll(rows[lo..hi]) == ShapeAll(rows)[lo..hi]
  {
    var a, b := ShapeAll(rows[lo..hi]), ShapeAll(rows)[lo..hi];
    forall k | 0 <= k < hi - lo ensures a[k] == b[k] {
      ShapeUnique(a[k], rows[lo + k]);
      ShapeUnique(b[k], rows[lo + k]);
    }
  }

  /** A user name stored as "  jdoe  " is sent as "jdoe". */
  lemma TrimsAuditUser(r: RawRow)
    requires r.AUDTUSER == Some("  jdoe  ")
    ensures Shape(r).AuditUser == Some("jdoe")
  {
    var s := "  jdoe  ";
    assert s[2..6] == "jdoe" && s[..2] == "  " && s[6..] == "  ";
    assert JsText.Splits(s, "jdoe", 2, 6);
    JsText.TrimUnique(s, "jdoe");
  }
}
