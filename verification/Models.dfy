/** The records that travel between the provider, the repository and the services. */
module Models {
  /** A calendar day as a day number; 0 stands for Go's zero time. */
  type Date = int

  const ZERO_DATE: Date := 0

  datatype Company = Company(symbol: string, name: string, exchange: string, sector: string,
                             industry: string, currency: string, description: string)

  datatype DailyPrice = DailyPrice(date: Date, open: real, high: real, low: real, close: real, volume: int)

  datatype IncomeStatement = IncomeStatement(period: string, fiscalDate: Date, revenue: real, grossProfit: real,
                                             operatingIncome: real, netIncome: real, dilutedEps: real)

  datatype BalanceSheet = BalanceSheet(period: string, fiscalDate: Date, totalAssets: real, totalLiabilities: real,
                                       totalEquity: real, totalDebt: real, currentAssets: real,
                                       currentLiabilities: real, sharesOutstanding: real)

  datatype CashFlow = CashFlow(period: string, fiscalDate: Date, operating: real, investing: real,
                               financing: real, netChange: real)

  datatype Snapshot = Snapshot(company: Company, prices: seq<DailyPrice>, income: seq<IncomeStatement>,
                               balance: seq<BalanceSheet>, cashFlow: seq<CashFlow>)
}
