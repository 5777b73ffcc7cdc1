/** The fundamental ratios and their guards. */
module Fundamentals {
  import opened Prelude
  import opened Technical
  import opened Series

  type Figure = Result<real, Error>

  function Ratio(num: real, den: real, allowNegative: bool): Figure {
    if den == 0.0 || (!allowNegative && den < 0.0) then Err(Undefined) else Ok(num / den)
  }

  function PERatio(price: real, dilutedEps: real): Figure {
    if price <= 0.0 then Err(InvalidInput) else Ratio(price, dilutedEps, true)
  }

  function PriceToBook(price: real, totalEquity: real, sharesOutstanding: real): Figure {
    if price <= 0.0 then Err(InvalidInput)
    else if sharesOutstanding <= 0.0 || totalEquity <= 0.0 then Err(Undefined)
    else
      DivPositive(totalEquity, sharesOutstanding);
      Ok(price / (totalEquity / sharesOutstanding))
  }

  function ROE(netIncome: real, equity: real): Figure { Ratio(netIncome, equity, false) }

  function ROA(netIncome: real, totalAssets: real): Figure { Ratio(netIncome, totalAssets, false) }

  function NetMargin(netIncome: real, revenue: real): Figure { Ratio(netIncome, revenue, true) }

  function CurrentRatio(currentAssets: real, currentLiabilities: real): Figure {
    Ratio(currentAssets, currentLiabilities, false)
  }

  function DebtToEquity(totalDebt: real, equity: real): Figure { Ratio(totalDebt, equity, false) }

  /** RevenueGrowth and EarningsGrowth of the source. */
  function Growth(prev: real, latest: real): Figure {
    if prev <= 0.0 then Err(Undefined) else Ok((latest - prev) / prev)
  }

  /** An error becomes a null in the response. */
  function Nullable<T>(r: Result<T, Error>): Option<T> {
    match r
    case Ok(v) => Some(v)
    case Err(_) => None
  }

  /** The newest value of a series, null when there is none. */
  function Last(r: Outcome): Option<real> {
    if r.Err? || r.value == [] then None else Some(r.value[|r.value| - 1])
  }
}
