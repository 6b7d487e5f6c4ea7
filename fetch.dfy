/** The per-security assembler `fetch_stock_data`: from the provider's info snapshot and
    its three quarterly statements to one flat record, or to no record at all. */
module FetchData {
  import opened Optional
  import opened Statements
  import opened InfoSnapshot
  import opened Sectors
  import Text

  /** Row-name aliases, most standard name first. */
  const RevenueAliases: seq<string> := ["Total Revenue", "Operating Revenue"]
  const OperatingCashFlowAliases: seq<string> := ["Operating Cash Flow", "Total Cash From Operating Activities"]
  const CapexAliases: seq<string> := ["Capital Expenditure", "Capital Expenditures"]
  const StockCompensationAliases: seq<string> := ["Stock Based Compensation", "Issuance Of Stock"]
  const DebtAliases: seq<string> := ["Total Debt", "Long Term Debt"]
  const CashAliases: seq<string> := ["Cash And Cash Equivalents"]

  /** Capital expenditure as spend: the absolute value of the TTM sum of the first
      capex alias present (the statement reports it as a negative cash flow). */
  function CapexTtm(cashflow: Table): (r: real)
    ensures r >= 0.0
    ensures r == Ttm(cashflow, CapexAliases) || r == -Ttm(cashflow, CapexAliases)
  {
    var v := Ttm(cashflow, CapexAliases);
    if v < 0.0 then -v else v
  }

  /** Four quarters of -10 in "Capital Expenditure" give a spend of 40. */
  lemma CapexExample()
    ensures CapexTtm(Frame(map["Capital Expenditure" := [Some(-10.0), Some(-10.0), Some(-10.0), Some(-10.0)]], 4)) == 40.0
  {
    var t: Table := Frame(map["Capital Expenditure" := [Some(-10.0), Some(-10.0), Some(-10.0), Some(-10.0)]], 4);
    assert IsFirstPresent(t.rows, CapexAliases, 0);
  }

  /** The newest period's value of every line item (`q_balance.iloc[:, 0]`). */
  function NewestColumn(bs: Table): (col: map<string, Cell>)
    requires !bs.Empty()
    ensures col.Keys == bs.rows.Keys
    ensures forall k :: k in col ==> col[k] == bs.rows[k][0]
  {
    map k | k in bs.rows :: bs.rows[k][0]
  }

  /** A reference reading of one balance-sheet figure: the newest cell of the row
      `safe_get` would find for these aliases, and 0 when there is none. */
  function NewestOf(bs: Table, keys: seq<string>): (c: Cell)
    ensures bs.Empty() ==> c == Some(0.0)
  {
    if bs.Empty() then Some(0.0)
    else
      var row := SafeGet(bs, keys);
      if row == [] then Some(0.0) else row[0]
  }

  /** The balance-sheet block. Both figures start at 0 and are overwritten from the
      newest column of a non-empty sheet: total debt from "Total Debt", else from
      "Long Term Debt"; cash from "Cash And Cash Equivalents" (the "Total Assets"
      branch leaves it at 0). A NaN cell is copied as NaN (`None`). */
  method BalanceSheetFigures(bs: Table) returns (totalDebt: Cell, cash: Cell)
    ensures bs.Empty() ==> totalDebt == Some(0.0) && cash == Some(0.0)
    ensures !bs.Empty() ==>
              totalDebt == (if "Total Debt" in bs.rows then bs.rows["Total Debt"][0]
                            else if "Long Term Debt" in bs.rows then bs.rows["Long Term Debt"][0]
                            else Some(0.0))
    ensures !bs.Empty() ==>
              cash == (if "Cash And Cash Equivalents" in bs.rows then bs.rows["Cash And Cash Equivalents"][0]
                       else Some(0.0))
    ensures totalDebt == NewestOf(bs, DebtAliases)
    ensures cash == NewestOf(bs, CashAliases)
  {
    totalDebt := Some(0.0);
    cash := Some(0.0);
    if !bs.Empty() {
      var recent := NewestColumn(bs);
      if "Total Debt" in recent {
        totalDebt := recent["Total Debt"];
      } else if "Long Term Debt" in recent {
        totalDebt := recent["Long Term Debt"];
      }
      if "Cash And Cash Equivalents" in recent {
        cash := recent["Cash And Cash Equivalents"];
      } else if "Total Assets" in recent {
        cash := Some(0.0);
      }
      SafeGetTwoAliases(bs, "Total Debt", "Long Term Debt");
      if "Cash And Cash Equivalents" in bs.rows {
        assert IsFirstPresent(bs.rows, CashAliases, 0);
      }
    }
  }

  /** The provider's answer for one ticker: info snapshot and quarterly income,
      cash-flow and balance-sheet statements. */
  datatype ProviderData = ProviderData(info: Info, income: Table, cashflow: Table, balance: Table)

  /** The record `fetch_stock_data` returns. `None` cells of the balance sheet are NaN. */
  datatype StockRecord = StockRecord(
    ticker: string,
    name: Option<string>,
    price: real,
    marketCap: real,
    revenueTtm: real,
    ocfTtm: real,
    capexTtm: real,
    sbcTtm: real,
    totalDebt: Cell,
    cashAndEquivalents: Cell,
    sharesOutstanding: real,
    beta: real,
    analystGrowthEstimate: real,
    forwardEps: real,
    sectorType: SectorType,
    lastUpdated: string)

  /** `fetch_stock_data`. `provider` is `None` when the provider raised (the catch-all
      turns that into no record); `now` is the formatted UTC clock reading. A record is
      produced exactly when the provider answered and the snapshot has a truthy price;
      its revenue plays no part in that, so a zero-revenue record is still returned. */
  method FetchStockData(ticker: string, provider: Option<ProviderData>, now: string)
    returns (record: Option<StockRecord>)
    ensures record.Some? <==> provider.Some? && Price(provider.value.info).Some?
    ensures record.Some? ==>
      var p, r := provider.value, record.value;
      && r.ticker == ticker
      && r.name == DisplayName(p.info)
      && r.price == Price(p.info).value
      && r.marketCap == GetOr(p.info, "marketCap", 0.0)
      && r.revenueTtm == Ttm(p.income, RevenueAliases)
      && r.ocfTtm == Ttm(p.cashflow, OperatingCashFlowAliases)
      && r.capexTtm == CapexTtm(p.cashflow)
      && r.sbcTtm == Ttm(p.cashflow, StockCompensationAliases)
      && r.totalDebt == NewestOf(p.balance, DebtAliases)
      && r.cashAndEquivalents == NewestOf(p.balance, CashAliases)
      && r.sharesOutstanding == GetOr(p.info, "sharesOutstanding", 0.0)
      && r.beta == GetOr(p.info, "beta", 1.0)
      && r.analystGrowthEstimate == AnalystGrowth(p.info)
      && r.forwardEps == GetOr(p.info, "forwardEps", 0.0)
      && r.sectorType == Classify(SectorName(p.info))
      && r.lastUpdated == now
  {
    if provider.None? {
      return None;
    }
    var info := provider.value.info;
    var price := Price(info);
    if price.None? {
      return None;
    }
    var revenueTtm := Ttm(provider.value.income, RevenueAliases);
    var ocfTtm := Ttm(provider.value.cashflow, OperatingCashFlowAliases);
    var capexTtm := CapexTtm(provider.value.cashflow);
    var sbcTtm := Ttm(provider.value.cashflow, StockCompensationAliases);
    var totalDebt, cash := BalanceSheetFigures(provider.value.balance);
    var shares := GetOr(info, "sharesOutstanding", 0.0);
    var analystGrowth := AnalystGrowth(info);
    var forwardEps := GetOr(info, "forwardEps", 0.0);
    var sectorType := Classify(SectorName(info));
    var data := StockRecord(
      ticker, DisplayName(info), price.value, GetOr(info, "marketCap", 0.0),
      revenueTtm, ocfTtm, capexTtm, sbcTtm,
      totalDebt, cash, shares,
      GetOr(info, "beta", 1.0), analystGrowth, forwardEps,
      sectorType, now);
    // A zero revenue is only warned about; the record is kept.
    return Some(data);
  }

  /** A worked security: revenue of 100 a quarter, operating cash flow of 30, capital
      expenditure of -10, sector "Software", market cap 50e9, trailing P/E 30, PEG 1.5
      and beta 1.1. */
  const ScenarioIncome: Table :=
    Frame(map["Total Revenue" := [Some(100.0), Some(100.0), Some(100.0), Some(100.0)]], 4)
  const ScenarioCashflow: Table :=
    Frame(map["Operating Cash Flow" := [Some(30.0), Some(30.0), Some(30.0), Some(30.0)],
              "Capital Expenditure" := [Some(-10.0), Some(-10.0), Some(-10.0), Some(-10.0)]], 4)
  const ScenarioInfo: Info :=
    Info(map["marketCap" := 50000000000.0, "trailingPE" := 30.0, "pegRatio" := 1.5, "beta" := 1.1],
         map["sector" := "Software"])

  lemma ScenarioStatements()
    ensures Ttm(ScenarioIncome, RevenueAliases) == 400.0
    ensures Ttm(ScenarioCashflow, OperatingCashFlowAliases) == 120.0
    ensures CapexTtm(ScenarioCashflow) == 40.0
  {
    assert IsFirstPresent(ScenarioIncome.rows, RevenueAliases, 0);
    assert IsFirstPresent(ScenarioCashflow.rows, OperatingCashFlowAliases, 0);
    assert IsFirstPresent(ScenarioCashflow.rows, CapexAliases, 0);
  }

  lemma ScenarioEstimates()
    ensures Classify(SectorName(ScenarioInfo)) == SaaS
    ensures AnalystGrowth(ScenarioInfo) == 20.0
    ensures GetOr(ScenarioInfo, "beta", 1.0) == 1.1
  {
    assert Text.OccursAt("Software", "Software", 0);
  }
}
