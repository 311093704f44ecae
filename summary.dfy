/** The summary endpoints' aggregation: entries are grouped by their
    optional-field value, and each group adds up the amounts booked to
    revenue accounts (id starting with "4") and to cost-of-goods-sold
    accounts (id starting with "5"); gross profit is the difference. */
module Summary {
  import opened Wrappers
  import JsText
  import Rows

  /** One group of the summary. */
  datatype Totals = Totals(revenue: real, cogs: real, grossProfit: real)

  /** What an account id says about where its amount goes. */
  datatype AccountKind = RevenueAccount | CostAccount | OtherAccount

  const UnknownKey: string := "Unknown"

  /** `entry.OptionalFieldValue || "Unknown"`: a missing or empty value is
      falsy and gives way to "Unknown". */
  function GroupKey(e: Rows.Entry): (k: string)
    ensures k != ""
    ensures e.OptionalFieldValue.Some? && e.OptionalFieldValue.value != "" ==> k == e.OptionalFieldValue.value
    ensures e.OptionalFieldValue.None? || e.OptionalFieldValue.value == "" ==> k == UnknownKey
  {
    match e.OptionalFieldValue
    case Some(v) => if v != "" then v else UnknownKey
    case None => UnknownKey
  }

  /** `AccountId?.startsWith("4")`, else `AccountId?.startsWith("5")`; a
      missing account id is neither. */
  function Classify(accountId: Option<string>): (k: AccountKind)
    ensures k == RevenueAccount <==> accountId.Some? && "4" <= accountId.value
    ensures k == CostAccount <==> accountId.Some? && "5" <= accountId.value
  {
    match accountId
    case None => OtherAccount
    case Some(a) =>
      if |a| > 0 && a[0] == '4' then RevenueAccount
      else if |a| > 0 && a[0] == '5' then CostAccount
      else OtherAccount
  }

  /** `parseFloat(entry.TransactionAmount) || 0`: a NULL amount parses to
      NaN and counts as zero. */
  function Amount(e: Rows.Entry): (a: real)
    ensures e.TransactionAmount.None? ==> a == 0.0
    ensures e.TransactionAmount.Some? ==> a == e.TransactionAmount.value
  {
    e.TransactionAmount.GetOr(0.0)
  }

  /** The groups the entries fall into. */
  function Keys(entries: seq<Rows.Entry>): set<string> {
    set i | 0 <= i < |entries| :: GroupKey(entries[i])
  }

  /** What the last entry adds to the `kind` total of group `key`. */
  function Contribution(e: Rows.Entry, key: string, kind: AccountKind): real {
    if GroupKey(e) == key && Classify(e.AccountId) == kind then Amount(e) else 0.0
  }

  /** The sum of the amounts of the entries in group `key` whose account is
      of kind `kind`. */
  function GroupSum(entries: seq<Rows.Entry>, key: string, kind: AccountKind): real {
    if entries == [] then 0.0
    else GroupSum(entries[..|entries| - 1], key, kind) + Contribution(entries[|entries| - 1], key, kind)
  }

  /** The totals group `key` should show. */
  function Expected(entries: seq<Rows.Entry>, key: string): Totals {
    var revenue := GroupSum(entries, key, RevenueAccount);
    var cogs := GroupSum(entries, key, CostAccount);
    Totals(revenue, cogs, revenue - cogs)
  }

  /** The names a plain JavaScript object inherits from `Object.prototype`:
      looking one of them up in `{}` finds a function or an object, never
      `undefined`. */
  const InheritedNames: set<string> := {
    "constructor", "__proto__", "__defineGetter__", "__defineSetter__",
    "__lookupGetter__", "__lookupSetter__", "hasOwnProperty", "isPrototypeOf",
    "propertyIsEnumerable", "toLocaleString", "toString", "valueOf" }

  lemma KeysSnoc(entries: seq<Rows.Entry>, i: int)
    requires 0 <= i < |entries|
    ensures Keys(entries[..i + 1]) == Keys(entries[..i]) + {GroupKey(entries[i])}
  {
    var a, b := entries[..i + 1], entries[..i];
    forall k | k in Keys(a) ensures k in Keys(b) + {GroupKey(entries[i])} {
      var j :| 0 <= j < |a| && GroupKey(a[j]) == k;
      if j < i { assert b[j] == a[j]; }
    }
    forall k | k in Keys(b) ensures k in Keys(a) {
      var j :| 0 <= j < |b| && GroupKey(b[j]) == k;
      assert a[j] == b[j];
    }
    assert a[i] == entries[i];
  }

  lemma GroupSumSnoc(entries: seq<Rows.Entry>, i: int, key: string, kind: AccountKind)
    requires 0 <= i < |entries|
    ensures GroupSum(entries[..i + 1], key, kind) == GroupSum(entries[..i], key, kind) + Contribution(entries[i], key, kind)
  {
    assert entries[..i + 1][..i] == entries[..i];
  }

  /** A group no entry falls into has nothing added up. */
  lemma {:induction false} GroupSumOutside(entries: seq<Rows.Entry>, key: string, kind: AccountKind)
    requires key !in Keys(entries)
    ensures GroupSum(entries, key, kind) == 0.0
  {
    if entries != [] {
      var n := |entries| - 1;
      KeysSnoc(entries, n);
      assert entries[..n + 1] == entries;
      GroupSumOutside(entries[..n], key, kind);
    }
  }

  /** The sums held for groups `before` entry `i` is added. */
  ghost predicate SumsUpTo(entries: seq<Rows.Entry>, i: int, shadowed: set<string>, summary: map<string, Totals>)
    requires 0 <= i <= |entries|
  {
    && summary.Keys == Keys(entries[..i]) - shadowed
    && forall k :: k in summary ==>
         summary[k] == Totals(GroupSum(entries[..i], k, RevenueAccount), GroupSum(entries[..i], k, CostAccount), 0.0)
  }

  /** One pass of the `forEach` body keeps the sums right: the entry's group
      gets its amount added, or is created with it, and no other group
      changes. */
  lemma AddEntryStep(entries: seq<Rows.Entry>, i: int, shadowed: set<string>,
                     before: map<string, Totals>, after: map<string, Totals>)
    requires 0 <= i < |entries| && SumsUpTo(entries, i, shadowed, before)
    requires var key := GroupKey(entries[i]);
      && (key in shadowed ==> after == before)
      && (key !in shadowed ==>
            var base := if key in before then before[key] else Totals(0.0, 0.0, 0.0);
            after == before[key := Totals(base.revenue + Contribution(entries[i], key, RevenueAccount),
                                          base.cogs + Contribution(entries[i], key, CostAccount), 0.0)])
    ensures SumsUpTo(entries, i + 1, shadowed, after)
  {
    var key := GroupKey(entries[i]);
    KeysSnoc(entries, i);
    if key !in shadowed && key !in before {
      GroupSumOutside(entries[..i], key, RevenueAccount);
      GroupSumOutside(entries[..i], key, CostAccount);
    }
    forall k | k in after
      ensures after[k] == Totals(GroupSum(entries[..i + 1], k, RevenueAccount),
                                 GroupSum(entries[..i + 1], k, CostAccount), 0.0)
    {
      GroupSumSnoc(entries, i, k, RevenueAccount);
      GroupSumSnoc(entries, i, k, CostAccount);
    }
  }

  /** The `forEach` over the shaped entries (the corrected form when
      `shadowed` is empty). Each entry's group is created with zeros the
      first time its key is seen, and its amount is added to revenue, to
      cogs or to neither. A key in `shadowed` stands for a lookup that finds
      something that is not a group: no group is made for it and its
      amounts go nowhere. Gross profit is not set yet. */
  method AddUpGroups(entries: seq<Rows.Entry>, shadowed: set<string>) returns (summary: map<string, Totals>)
    ensures summary.Keys == Keys(entries) - shadowed
    ensures forall k :: k in summary ==>
      summary[k] == Totals(GroupSum(entries, k, RevenueAccount), GroupSum(entries, k, CostAccount), 0.0)
  {
    summary := map[];
    for i := 0 to |entries|
      invariant SumsUpTo(entries, i, shadowed, summary)
    {
      var e := entries[i];
      var key := GroupKey(e);
      ghost var before := summary;
      if key !in shadowed {
        if key !in summary {
          summary := summary[key := Totals(0.0, 0.0, 0.0)];
        }
        var group := summary[key];
        var amount := Amount(e);
        match Classify(e.AccountId)
        case RevenueAccount =>
          summary := summary[key := group.(revenue := group.revenue + amount)];
        case CostAccount =>
          summary := summary[key := group.(cogs := group.cogs + amount)];
        case OtherAccount =>
      }
      AddEntryStep(entries, i, shadowed, before, summary);
    }
    assert entries[..|entries|] == entries;
  }

  /** The `for (const key in summary)` loop: every group gets
      `grossProfit = revenue - cogs`, and nothing else changes. */
  method SetGrossProfit(summary: map<string, Totals>) returns (result: map<string, Totals>)
    ensures result.Keys == summary.Keys
    ensures forall k :: k in result ==>
      result[k] == Totals(summary[k].revenue, summary[k].cogs, summary[k].revenue - summary[k].cogs)
  {
    result := summary;
    var pending := summary.Keys;
    while pending != {}
      invariant pending <= result.Keys == summary.Keys
      invariant forall k :: k in result && k in pending ==> result[k] == summary[k]
      invariant forall k :: k in result && k !in pending ==>
        result[k] == Totals(summary[k].revenue, summary[k].cogs, summary[k].revenue - summary[k].cogs)
      decreases pending
    {
      var k :| k in pending;
      result := result[k := result[k].(grossProfit := result[k].revenue - result[k].cogs)];
      pending := pending - {k};
    }
  }

  /** The summary with a real dictionary: one group per distinct key, each
      holding its revenue, its cogs and their difference. */
  method Summarize(entries: seq<Rows.Entry>) returns (summary: map<string, Totals>)
    ensures summary.Keys == Keys(entries)
    ensures forall k :: k in summary ==> summary[k] == Expected(entries, k)
  {
    var sums := AddUpGroups(entries, {});
    summary := SetGrossProfit(sums);
  }

  /** The summary as the handlers compute it, on a plain `{}`: a key that
      names an inherited property never gets a group, and its entries are
      missing from the result. */
  method SummarizeAsWritten(entries: seq<Rows.Entry>) returns (summary: map<string, Totals>)
    ensures summary.Keys == Keys(entries) - InheritedNames
    ensures forall k :: k in summary ==> summary[k] == Expected(entries, k)
  {
    var sums := AddUpGroups(entries, InheritedNames);
    summary := SetGrossProfit(sums);
  }

  /** An entry whose optional-field value is "constructor" belongs to a group
      the corrected summary shows and the one as written drops, with 100 of
      revenue in it. */
  lemma ConstructorGroupLost(e: Rows.Entry)
    requires e.OptionalFieldValue == Some("constructor")
    requires e.AccountId == Some("40001") && e.TransactionAmount == Some(100.0)
    ensures "constructor" in Keys([e]) && "constructor" in InheritedNames
    ensures Expected([e], "constructor") == Totals(100.0, 0.0, 100.0)
  {
    assert GroupKey([e][0]) == "constructor";
    assert [e][..0] == [];
    assert Classify(e.AccountId) == RevenueAccount;
    assert GroupSum([e], "constructor", RevenueAccount) == 100.0;
    assert GroupSum([e], "constructor", CostAccount) == 0.0;
  }

  /** Two entries of group "Retail", 100 on account 40001 and 40 on account
      50001, give revenue 100, cogs 40 and gross profit 60. */
  lemma RetailExample(e1: Rows.Entry, e2: Rows.Entry)
    requires e1.OptionalFieldValue == Some("Retail") && e2.OptionalFieldValue == Some("Retail")
    requires e1.AccountId == Some("40001") && e1.TransactionAmount == Some(100.0)
    requires e2.AccountId == Some("50001") && e2.TransactionAmount == Some(40.0)
    ensures Keys([e1, e2]) == {"Retail"}
    ensures Expected([e1, e2], "Retail") == Totals(100.0, 40.0, 60.0)
  {
    var s := [e1, e2];
    assert s[..1] == [e1] && s[..1][..0] == [];
    assert GroupKey(s[0]) == "Retail" && GroupKey(s[1]) == "Retail";
    assert Classify(e1.AccountId) == RevenueAccount && Classify(e2.AccountId) == CostAccount;
    assert GroupSum([e1], "Retail", RevenueAccount) == 100.0;
    assert GroupSum([e1], "Retail", CostAccount) == 0.0;
    assert GroupSum(s, "Retail", RevenueAccount) == 100.0;
    assert GroupSum(s, "Retail", CostAccount) == 40.0;
  }

  /** Entries whose accounts are neither revenue nor cost still make their
      group, with zero totals. */
  lemma {:induction false} OtherAccountsMakeZeroGroup(entries: seq<Rows.Entry>, key: string)
    requires key in Keys(entries)
    requires forall i :: 0 <= i < |entries| && GroupKey(entries[i]) == key ==>
      Classify(entries[i].AccountId) == OtherAccount
    ensures Expected(entries, key) == Totals(0.0, 0.0, 0.0)
  {
    OtherAccountsAddNothing(entries, key, RevenueAccount);
    OtherAccountsAddNothing(entries, key, CostAccount);
  }

  lemma {:induction false} OtherAccountsAddNothing(entries: seq<Rows.Entry>, key: string, kind: AccountKind)
    requires kind != OtherAccount
    requires forall i :: 0 <= i < |entries| && GroupKey(entries[i]) == key ==>
      Classify(entries[i].AccountId) == OtherAccount
    ensures GroupSum(entries, key, kind) == 0.0
  {
    if entries != [] {
      var n := |entries| - 1;
      assert forall i :: 0 <= i < n ==> entries[..n][i] == entries[i];
      OtherAccountsAddNothing(entries[..n], key, kind);
    }
  }

  /** The entry's group is "Unknown" exactly when its optional-field value is
      NULL, blank, or itself "Unknown" once trimmed: blank values and a
      literal "Unknown" share one group. */
  lemma UnknownGroupIff(r: Rows.RawRow)
    ensures GroupKey(Rows.Shape(r)) == UnknownKey <==>
      r.OPTFIELD_VALUE.None? || JsText.AllWhitespace(r.OPTFIELD_VALUE.value)
      || JsText.Trim(r.OPTFIELD_VALUE.value) == UnknownKey
  {
    if r.OPTFIELD_VALUE.Some? {
      JsText.TrimEmptyIff(r.OPTFIELD_VALUE.value);
    }
  }

  /** The sum of the `kind` amounts of every entry of kind `kind`. */
  function Total(entries: seq<Rows.Entry>, kind: AccountKind): real {
    if entries == [] then 0.0
    else
      var e := entries[|entries| - 1];
      Total(entries[..|entries| - 1], kind) + (if Classify(e.AccountId) == kind then Amount(e) else 0.0)
  }

  /** The same, restricted to the entries whose group is in `groups`. */
  function TotalIn(entries: seq<Rows.Entry>, groups: set<string>, kind: AccountKind): real {
    if entries == [] then 0.0
    else
      var e := entries[|entries| - 1];
      TotalIn(entries[..|entries| - 1], groups, kind)
        + (if GroupKey(e) in groups && Classify(e.AccountId) == kind then Amount(e) else 0.0)
  }

  /** The `kind` totals of the groups in `groups`, added up. */
  ghost function SumOverGroups(entries: seq<Rows.Entry>, groups: set<string>, kind: AccountKind): real
    decreases groups
  {
    if groups == {} then 0.0
    else
      var k :| k in groups;
      GroupSum(entries, k, kind) + SumOverGroups(entries, groups - {k}, kind)
  }

  lemma {:induction false} TotalInSplit(entries: seq<Rows.Entry>, groups: set<string>, k: string, kind: AccountKind)
    requires k in groups
    ensures TotalIn(entries, groups, kind) == GroupSum(entries, k, kind) + TotalIn(entries, groups - {k}, kind)
  {
    if entries != [] {
      TotalInSplit(entries[..|entries| - 1], groups, k, kind);
    }
  }

  lemma {:induction false} SumOverGroupsIsTotalIn(entries: seq<Rows.Entry>, groups: set<string>, kind: AccountKind)
    ensures SumOverGroups(entries, groups, kind) == TotalIn(entries, groups, kind)
    decreases groups
  {
    if groups == {} {
      TotalInNone(entries, kind);
    } else {
      var k :| k in groups
        && SumOverGroups(entries, groups, kind) == GroupSum(entries, k, kind) + SumOverGroups(entries, groups - {k}, kind);
      SumOverGroupsIsTotalIn(entries, groups - {k}, kind);
      TotalInSplit(entries, groups, k, kind);
    }
  }

  lemma {:induction false} TotalInNone(entries: seq<Rows.Entry>, kind: AccountKind)
    ensures TotalIn(entries, {}, kind) == 0.0
  {
    if entries != [] {
      TotalInNone(entries[..|entries| - 1], kind);
    }
  }

  lemma {:induction false} TotalInAll(entries: seq<Rows.Entry>, groups: set<string>, kind: AccountKind)
    requires Keys(entries) <= groups
    ensures TotalIn(entries, groups, kind) == Total(entries, kind)
  {
    if entries != [] {
      var n := |entries| - 1;
      KeysSnoc(entries, n);
      assert entries[..n + 1] == entries;
      TotalInAll(entries[..n], groups, kind);
    }
  }

  /** Grouping loses and invents nothing: the revenue (or cogs) of all groups
      together is the revenue (or cogs) of all entries. */
  lemma GroupsConserveTotals(entries: seq<Rows.Entry>, kind: AccountKind)
    ensures SumOverGroups(entries, Keys(entries), kind) == Total(entries, kind)
  {
    SumOverGroupsIsTotalIn(entries, Keys(entries), kind);
    TotalInAll(entries, Keys(entries), kind);
  }
}
