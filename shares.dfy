/** The shares controller: company registration with its shareholder roster,
    finance categories per shareholder, and the monthly share distribution. */
module Shares {
  import opened Wrappers
  import opened Text
  import opened Transactions
  import opened Profit

  type ShareholderId = int

  /** One shareholder row. `finance` is what the company has advanced to the
      shareholder; `shareProfit` is the running total of distributed profit. */
  datatype Shareholder = Shareholder(
    name: string,
    sharePercentage: real,
    finance: Option<Money>,
    shareProfit: Money)

  /** A company's share details; `roster` lists its shareholder rows in order. */
  datatype Company = Company(
    businessName: string,
    businessCategory: string,
    businessType: string,
    numberOfShareHolders: int,
    roster: seq<ShareholderId>)

  /** The company row as the nested create returns it: the request's fields
      and the owner, without the shareholder rows (no `include`). */
  datatype CompanyDetails = CompanyDetails(
    businessName: string,
    businessCategory: string,
    businessType: string,
    numberOfShareHolders: int,
    userId: UserId)

  /** A shareholder as submitted in the creation request. */
  datatype ShareholderInput = ShareholderInput(name: string, sharePercentage: real)

  /** A transaction category owned by a user. */
  datatype Category = Category(name: string, createdBy: UserId)

  /** One entry of the distribution report. */
  datatype Line = Line(
    shareholder: string,
    percentage: real,
    originalProfit: Money,
    financeDeducted: Money,
    finalProfit: Money)

  datatype Report = Report(month: string, totalProfit: Money, shareDistribution: seq<Line>)

  /** The `date` query parameter: absent, present but not a string (an array,
      say), or a string. */
  datatype DateParam = Absent | NotText | Text(value: string)

  datatype ShareError =
    | NoShareholdersAllowed               // 400, sole proprietorship or OPC with shareholders
    | CountMismatch(expected: int, got: int) // 400, list length differs from the count
    | CreateFailed                        // 500, the store refused the company row
    | CompanyNotFound                     // 400, no share details for the caller
    | BadDateFormat                       // 400, date missing or not 7 UTF-16 code units long
    | DistributionFailed                  // 500, the month could not be turned into dates

  // ---------------------------------------------------------------------------
  // Distribution arithmetic

  /** `(totalProfit * shareholder.sharePercentage) / 100`. */
  function Gross(total: Money, s: Shareholder): Money {
    total * s.sharePercentage / 100.0
  }

  /** `shareholder.finance || 0`. */
  function FinanceOf(s: Shareholder): Money {
    s.finance.GetOr(0.0)
  }

  function LineFor(total: Money, s: Shareholder): Line {
    var gross := Gross(total, s);
    Line(s.name, s.sharePercentage, gross, FinanceOf(s), gross - FinanceOf(s))
  }

  /** The shareholder row after one distribution of `total`. */
  function Credited(total: Money, s: Shareholder): Shareholder {
    s.(shareProfit := s.shareProfit + LineFor(total, s).finalProfit)
  }

  /** The report lines for `ss`, one per row and in the same order. */
  function Lines(total: Money, ss: seq<Shareholder>): (r: seq<Line>)
    ensures |r| == |ss|
    ensures forall i :: 0 <= i < |ss| ==> r[i] == LineFor(total, ss[i])
  {
    if ss == [] then [] else [LineFor(total, ss[0])] + Lines(total, ss[1..])
  }

  /** The roster's rows, in roster order. */
  function Rows(table: map<ShareholderId, Shareholder>, roster: seq<ShareholderId>): seq<Shareholder>
    requires forall i :: 0 <= i < |roster| ==> roster[i] in table
  {
    seq(|roster|, i requires 0 <= i < |roster| => table[roster[i]])
  }

  function SumPercentages(ss: seq<Shareholder>): real {
    if ss == [] then 0.0 else ss[0].sharePercentage + SumPercentages(ss[1..])
  }

  function SumFinance(ss: seq<Shareholder>): Money {
    if ss == [] then 0.0 else FinanceOf(ss[0]) + SumFinance(ss[1..])
  }

  function SumGross(ls: seq<Line>): Money {
    if ls == [] then 0.0 else ls[0].originalProfit + SumGross(ls[1..])
  }

  function SumFinal(ls: seq<Line>): Money {
    if ls == [] then 0.0 else ls[0].finalProfit + SumFinal(ls[1..])
  }

  /** The gross shares add up to the profit times the percentages' total over 100. */
  lemma {:induction false} SumGrossOfLines(total: Money, ss: seq<Shareholder>)
    ensures SumGross(Lines(total, ss)) == total * SumPercentages(ss) / 100.0
  {
    if ss != [] {
      SumGrossOfLines(total, ss[1..]);
    }
  }

  /** The final shares add up to the gross total less every finance deduction. */
  lemma {:induction false} SumFinalOfLines(total: Money, ss: seq<Shareholder>)
    ensures SumFinal(Lines(total, ss)) == total * SumPercentages(ss) / 100.0 - SumFinance(ss)
  {
    if ss != [] {
      SumFinalOfLines(total, ss[1..]);
    }
  }

  /** No row carries a finance deduction. */
  predicate NoFinance(ss: seq<Shareholder>) {
    ss == [] || (FinanceOf(ss[0]) == 0.0 && NoFinance(ss[1..]))
  }

  lemma {:induction false} SumFinanceZero(ss: seq<Shareholder>)
    requires NoFinance(ss)
    ensures SumFinance(ss) == 0.0
  {
    if ss != [] {
      SumFinanceZero(ss[1..]);
    }
  }

  /** With percentages that add up to 100 and no finance deductions, the whole
      profit is handed out, no more and no less. */
  lemma FinalSharesAddUpToProfit(total: Money, ss: seq<Shareholder>)
    requires SumPercentages(ss) == 100.0
    requires NoFinance(ss)
    ensures SumFinal(Lines(total, ss)) == total
    ensures SumGross(Lines(total, ss)) == total
  {
    SumFinalOfLines(total, ss);
    SumGrossOfLines(total, ss);
    SumFinanceZero(ss);
  }

  /** The shareholder table after the roster's rows have each been credited
      once with their share of `total`, in roster order. */
  function CreditAll(table: map<ShareholderId, Shareholder>, roster: seq<ShareholderId>, total: Money)
    : (r: map<ShareholderId, Shareholder>)
    requires forall i :: 0 <= i < |roster| ==> roster[i] in table
    ensures r.Keys == table.Keys
    decreases |roster|
  {
    if roster == [] then table
    else
      var id := roster[0];
      CreditAll(table[id := Credited(total, table[id])], roster[1..], total)
  }

  /** Crediting a roster of distinct rows credits each of its rows exactly once
      and leaves every other row as it was. */
  lemma {:induction false} CreditAllEffect(table: map<ShareholderId, Shareholder>, roster: seq<ShareholderId>, total: Money)
    requires RosterOk(roster, table)
    ensures forall i :: 0 <= i < |roster| ==>
      CreditAll(table, roster, total)[roster[i]] == Credited(total, table[roster[i]])
    ensures forall k :: k in table && k !in roster ==> CreditAll(table, roster, total)[k] == table[k]
    decreases |roster|
  {
    if roster != [] {
      var id := roster[0];
      var rest := roster[1..];
      var next := table[id := Credited(total, table[id])];
      assert id !in rest by {
        forall j | 0 <= j < |rest| ensures rest[j] != id {
          assert rest[j] == roster[j + 1];
        }
      }
      assert RosterOk(rest, next) by {
        forall i, j | 0 <= i < j < |rest| ensures rest[i] != rest[j] {
          assert rest[i] == roster[i + 1] && rest[j] == roster[j + 1];
        }
      }
      CreditAllEffect(next, rest, total);
      forall i | 0 <= i < |roster|
        ensures CreditAll(table, roster, total)[roster[i]] == Credited(total, table[roster[i]])
      {
        if i > 0 {
          assert roster[i] == rest[i - 1];
          assert roster[i] != id;
        }
      }
    }
  }

  /** One row credited twice with the same total gains twice its net share. */
  lemma CreditedTwice(total: Money, s: Shareholder)
    ensures Credited(total, Credited(total, s)).shareProfit
         == s.shareProfit + 2.0 * (Gross(total, s) - FinanceOf(s))
  {
  }

  /** Nothing guards against distributing one month twice: crediting the
      roster a second time adds every row's net share again, and leaves the
      other rows alone. */
  lemma DistributingTwiceAddsTwice(table: map<ShareholderId, Shareholder>, roster: seq<ShareholderId>, total: Money)
    requires RosterOk(roster, table)
    ensures var twice := CreditAll(CreditAll(table, roster, total), roster, total);
      && (forall i :: 0 <= i < |roster| ==>
            twice[roster[i]].shareProfit
            == table[roster[i]].shareProfit + 2.0 * (Gross(total, table[roster[i]]) - FinanceOf(table[roster[i]])))
      && (forall k :: k in table && k !in roster ==> twice[k] == table[k])
  {
    var once := CreditAll(table, roster, total);
    CreditAllEffect(table, roster, total);
    assert RosterOk(roster, once) by {
      assert once.Keys == table.Keys;
    }
    var twice := CreditAll(once, roster, total);
    CreditAllEffect(once, roster, total);
    forall i | 0 <= i < |roster|
      ensures twice[roster[i]].shareProfit
           == table[roster[i]].shareProfit + 2.0 * (Gross(total, table[roster[i]]) - FinanceOf(table[roster[i]]))
    {
      CreditedTwice(total, table[roster[i]]);
    }
  }

  // ---------------------------------------------------------------------------
  // Finance categories

  /** The category `generateFinanceCategories` wants for one shareholder name. */
  function FinanceCategory(userId: UserId, name: string): Category {
    Category(Upper(name + " Finance"), userId)
  }

  /** The categories wanted for the shareholder names, one per name, in order. */
  function FinanceCategories(userId: UserId, names: seq<string>): seq<Category> {
    seq(|names|, i requires 0 <= i < |names| => FinanceCategory(userId, names[i]))
  }

  /** One step of the loop: create the category unless one with the same name
      and owner exists. */
  function InsertIfAbsent(cats: seq<Category>, c: Category): seq<Category> {
    if c in cats then cats else cats + [c]
  }

  /** The whole loop over the wanted categories, in order. */
  function AddMissing(cats: seq<Category>, wanted: seq<Category>): seq<Category>
    decreases |wanted|
  {
    if wanted == [] then cats else AddMissing(InsertIfAbsent(cats, wanted[0]), wanted[1..])
  }

  /** No two categories share a name and an owner. */
  predicate NoDuplicates(cats: seq<Category>) {
    forall i, j :: 0 <= i < j < |cats| ==> cats[i] != cats[j]
  }

  /** The loop keeps every old category in place, adds only wanted ones, and
      leaves every wanted one present. */
  lemma {:induction false} AddMissingShape(cats: seq<Category>, wanted: seq<Category>)
    ensures |AddMissing(cats, wanted)| >= |cats|
    ensures AddMissing(cats, wanted)[..|cats|] == cats
    ensures forall c :: c in AddMissing(cats, wanted) <==> c in cats || c in wanted
    decreases |wanted|
  {
    if wanted != [] {
      var next := InsertIfAbsent(cats, wanted[0]);
      AddMissingShape(next, wanted[1..]);
      assert next[..|cats|] == cats;
      assert wanted == [wanted[0]] + wanted[1..];
    }
  }

  /** An existing category is never duplicated. */
  lemma {:induction false} AddMissingKeepsNoDuplicates(cats: seq<Category>, wanted: seq<Category>)
    requires NoDuplicates(cats)
    ensures NoDuplicates(AddMissing(cats, wanted))
    decreases |wanted|
  {
    if wanted != [] {
      var next := InsertIfAbsent(cats, wanted[0]);
      if wanted[0] !in cats {
        forall i, j | 0 <= i < j < |next| ensures next[i] != next[j] {
          if j == |cats| {
            assert next[i] == cats[i];
          }
        }
      }
      AddMissingKeepsNoDuplicates(next, wanted[1..]);
    }
  }

  /** When everything wanted is already there the loop changes nothing. */
  lemma {:induction false} AddMissingPresent(cats: seq<Category>, wanted: seq<Category>)
    requires forall c :: c in wanted ==> c in cats
    ensures AddMissing(cats, wanted) == cats
    decreases |wanted|
  {
    if wanted != [] {
      assert wanted[0] in wanted;
      AddMissingPresent(cats, wanted[1..]);
    }
  }

  /** Running the loop a second time with the same names has no further effect. */
  lemma AddMissingIdempotent(cats: seq<Category>, wanted: seq<Category>)
    ensures AddMissing(AddMissing(cats, wanted), wanted) == AddMissing(cats, wanted)
  {
    AddMissingShape(cats, wanted);
    AddMissingPresent(AddMissing(cats, wanted), wanted);
  }

  /** Starting from a table without duplicates, each shareholder ends up with
      exactly one finance category. */
  lemma ExactlyOneFinanceCategory(cats: seq<Category>, userId: UserId, names: seq<string>, k: nat)
    requires NoDuplicates(cats)
    requires k < |names|
    ensures multiset(AddMissing(cats, FinanceCategories(userId, names)))[FinanceCategory(userId, names[k])] == 1
  {
    var wanted := FinanceCategories(userId, names);
    var r := AddMissing(cats, wanted);
    var c := FinanceCategory(userId, names[k]);
    assert c == wanted[k];
    AddMissingShape(cats, wanted);
    AddMissingKeepsNoDuplicates(cats, wanted);
    CountOfDistinct(r, c);
  }

  lemma {:induction false} CountOfDistinct(s: seq<Category>, c: Category)
    requires NoDuplicates(s) && c in s
    ensures multiset(s)[c] == 1
    decreases |s|
  {
    var init, last := s[..|s| - 1], s[|s| - 1];
    assert s == init + [last];
    assert NoDuplicates(init);
    if last == c {
      assert c !in init by {
        forall i | 0 <= i < |init| ensures init[i] != c {
          assert s[i] != s[|s| - 1];
        }
      }
    } else {
      CountOfDistinct(init, c);
    }
  }

  // ---------------------------------------------------------------------------
  // The store

  /** A roster names distinct rows of the table. */
  predicate RosterOk(roster: seq<ShareholderId>, table: map<ShareholderId, Shareholder>) {
    (forall i :: 0 <= i < |roster| ==> roster[i] in table)
    && (forall i, j :: 0 <= i < j < |roster| ==> roster[i] != roster[j])
  }

  predicate SoleOrOpc(businessType: string) {
    businessType == "Sole Proprietorship" || businessType == "OPC"
  }

  /** `!date || typeof date !== 'string' || date.length !== 7` is false. */
  predicate DateShapeOk(date: DateParam) {
    date.Text? && Utf16Length(date.value) == 7
  }

  /** The rows the nested `create` makes for the submitted shareholders, numbered
      from `base` in submission order; no finance value and no profit yet. */
  function NewRows(base: ShareholderId, entries: seq<ShareholderInput>): (r: map<ShareholderId, Shareholder>)
    ensures forall k :: k in r <==> base <= k < base + |entries|
    ensures forall i :: 0 <= i < |entries| ==>
      r[base + i] == Shareholder(entries[i].name, entries[i].sharePercentage, None, 0.0)
    decreases |entries|
  {
    if entries == [] then map[]
    else
      var n := |entries| - 1;
      NewRows(base, entries[..n])[base + n := Shareholder(entries[n].name, entries[n].sharePercentage, None, 0.0)]
  }

  class ShareLedger {
    var companies: map<UserId, Company>
    var shareholders: map<ShareholderId, Shareholder>
    var categories: seq<Category>
    /** The identifier the store gives the next shareholder row. */
    var nextId: ShareholderId

    ghost predicate Valid()
      reads this
    {
      (forall u :: u in companies ==> RosterOk(companies[u].roster, shareholders))
      && (forall k :: k in shareholders ==> k < nextId)
    }

    constructor ()
      ensures Valid()
      ensures companies == map[] && shareholders == map[] && categories == []
    {
      companies, shareholders, categories, nextId := map[], map[], [], 0;
    }

    /** `generateFinanceCategories`: insert-if-absent, one shareholder name at a time. */
    method GenerateFinanceCategories(userId: UserId, names: seq<string>)
      modifies this
      ensures categories == AddMissing(old(categories), FinanceCategories(userId, names))
      ensures companies == old(companies) && shareholders == old(shareholders) && nextId == old(nextId)
    {
      var wanted := FinanceCategories(userId, names);
      var i := 0;
      while i < |wanted|
        invariant 0 <= i <= |wanted|
        invariant AddMissing(categories, wanted[i..]) == AddMissing(old(categories), wanted)
        invariant companies == old(companies) && shareholders == old(shareholders) && nextId == old(nextId)
      {
        assert wanted[i..][1..] == wanted[i + 1..];
        var c := wanted[i];
        var existing := c in categories;
        if !existing {
          categories := categories + [c];
        }
        i := i + 1;
      }
    }

    /** `createCompanyShares`: `userExists` tells whether the caller's user row exists. */
    method CreateCompanyShares(
      userId: UserId, userExists: bool,
      businessName: string, businessCategory: string, businessType: string,
      numberOfShareHolders: int, entries: seq<ShareholderInput>)
      returns (r: Reply<CompanyDetails, ShareError>)
      requires Valid()
      modifies this
      ensures Valid()
      ensures SoleOrOpc(businessType) && numberOfShareHolders > 0 ==>
        r == Fail(400, NoShareholdersAllowed) && unchanged(this)
      ensures !(SoleOrOpc(businessType) && numberOfShareHolders > 0) && |entries| != numberOfShareHolders ==>
        r == Fail(400, CountMismatch(numberOfShareHolders, |entries|)) && unchanged(this)
      ensures (!(SoleOrOpc(businessType) && numberOfShareHolders > 0) && |entries| == numberOfShareHolders
        && (!userExists || userId in old(companies))) ==>
        r == Fail(500, CreateFailed) && unchanged(this)
      ensures r.Ok? <==>
        !(SoleOrOpc(businessType) && numberOfShareHolders > 0) && |entries| == numberOfShareHolders
        && userExists && userId !in old(companies)
      ensures r.Ok? ==>
        && r.status == 201
        && r.body == CompanyDetails(businessName, businessCategory, businessType, numberOfShareHolders, userId)
        && companies == old(companies)[userId := Company(businessName, businessCategory, businessType,
             numberOfShareHolders, seq(|entries|, i requires 0 <= i < |entries| => old(nextId) + i))]
        && nextId == old(nextId) + |entries|
        && (forall k :: k in shareholders <==> k in old(shareholders) || old(nextId) <= k < old(nextId) + |entries|)
        && (forall k :: k in old(shareholders) ==> shareholders[k] == old(shareholders)[k])
        && (forall i :: 0 <= i < |entries| ==>
              shareholders[old(nextId) + i] == Shareholder(entries[i].name, entries[i].sharePercentage, None, 0.0))
        && categories == AddMissing(old(categories),
             FinanceCategories(userId, seq(|entries|, i requires 0 <= i < |entries| => entries[i].name)))
    {
      if SoleOrOpc(businessType) && numberOfShareHolders > 0 {
        return Fail(400, NoShareholdersAllowed);
      }
      if |entries| != numberOfShareHolders {
        return Fail(400, CountMismatch(numberOfShareHolders, |entries|));
      }
      if !userExists || userId in companies {
        return Fail(500, CreateFailed);
      }
      var base := nextId;
      var roster := seq(|entries|, i requires 0 <= i < |entries| => base + i);
      var rows := NewRows(base, entries);
      var company := Company(businessName, businessCategory, businessType, numberOfShareHolders, roster);
      shareholders := shareholders + rows;
      companies := companies[userId := company];
      nextId := base + |entries|;
      assert RosterOk(roster, shareholders);
      assert forall u :: u in old(companies) ==> companies[u] == old(companies)[u];
      GenerateFinanceCategories(userId, seq(|entries|, i requires 0 <= i < |entries| => entries[i].name));
      return Ok(201, CompanyDetails(businessName, businessCategory, businessType, numberOfShareHolders, userId));
    }

    /** `calculateShareDistribution` for the caller's company. `window` is what
        the date library makes of `date + "-01"` and the month after it (`None`
        when that is not a valid date), and `fetched` is the transaction table
        the aggregator's query runs over. */
    method Distribute(userId: UserId, date: DateParam, window: Option<Window>,
                      fetched: Option<seq<Transaction>>)
      returns (r: Reply<Report, ShareError>)
      requires Valid()
      modifies this
      ensures Valid()
      ensures companies == old(companies) && categories == old(categories) && nextId == old(nextId)
      ensures userId !in companies ==>
        r == Fail(400, CompanyNotFound) && shareholders == old(shareholders)
      ensures userId in companies && !DateShapeOk(date) ==>
        r == Fail(400, BadDateFormat) && shareholders == old(shareholders)
      ensures userId in companies && DateShapeOk(date) && window == None ==>
        r == Fail(500, DistributionFailed) && shareholders == old(shareholders)
      ensures userId in companies && DateShapeOk(date) && window.Some? ==>
        var total := GetTotalProfitByMonth(fetched, window.value);
        var roster := companies[userId].roster;
        && r == Ok(200, Report(date.value, total, Lines(total, Rows(old(shareholders), roster))))
        && shareholders == CreditAll(old(shareholders), roster, total)
    {
      if userId !in companies {
        return Fail(400, CompanyNotFound);
      }
      var roster := companies[userId].roster;
      if !DateShapeOk(date) {
        return Fail(400, BadDateFormat);
      }
      if window == None {
        return Fail(500, DistributionFailed);
      }
      var total := GetTotalProfitByMonth(fetched, window.value);
      var lines := CreditRoster(roster, total);
      return Ok(200, Report(date.value, total, lines));
    }

    /** The `Promise.all` over the roster, one shareholder after another: each
        row's `shareProfit` is increased by its net share and its report line
        is collected. */
    method CreditRoster(roster: seq<ShareholderId>, total: Money) returns (lines: seq<Line>)
      requires RosterOk(roster, shareholders)
      modifies this
      ensures lines == Lines(total, Rows(old(shareholders), roster))
      ensures shareholders == CreditAll(old(shareholders), roster, total)
      ensures companies == old(companies) && categories == old(categories) && nextId == old(nextId)
    {
      lines := [];
      var i := 0;
      while i < |roster|
        invariant 0 <= i <= |roster|
        invariant companies == old(companies) && categories == old(categories) && nextId == old(nextId)
        invariant shareholders.Keys == old(shareholders).Keys
        invariant CreditAll(shareholders, roster[i..], total) == CreditAll(old(shareholders), roster, total)
        invariant forall j :: i <= j < |roster| ==> shareholders[roster[j]] == old(shareholders)[roster[j]]
        invariant |lines| == i
        invariant forall j :: 0 <= j < i ==> lines[j] == LineFor(total, old(shareholders)[roster[j]])
      {
        var id := roster[i];
        assert roster[i..][1..] == roster[i + 1..];
        var s := shareholders[id];
        var line := LineFor(total, s);
        shareholders := shareholders[id := s.(shareProfit := s.shareProfit + line.finalProfit)];
        lines := lines + [line];
        i := i + 1;
      }
      assert roster[i..] == [];
    }
  }
}
