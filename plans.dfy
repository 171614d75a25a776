/** The plan records of the energy-plan market API as the scraper reads them.
    A key the scraper reads with a default (`.get(key, default)`) is
    modelled by that default when the key is absent; a key whose absence
    the scraper tests for, or that it indexes (`record[key]`, which raises
    KeyError when the key is absent), is an Option. */
module Plans {
  import opened Numbers

  /** One block of a usage tariff; its price is in cents per kWh, before
      GST, and None when the block has no unitPrice key. */
  datatype BlockRate = BlockRate(unitPrice: Option<real>)

  /** A time-of-use block (peak, shoulder, off-peak ...) with its block rates. */
  datatype TouBlock = TouBlock(blockRates: seq<BlockRate>)

  /** A tariff period. demandCharges is the number of entries of its
      demandCharge list (0 when the key is absent or null). */
  datatype TariffPeriod = TariffPeriod(
    dailySupplyCharge: Option<real>,
    blockRates: seq<BlockRate>,
    touBlocks: seq<TouBlock>,
    demandCharges: nat)

  /** One solar feed-in step: price in c/kWh and the daily volume it applies
      to (0 when absent). Both are numbers the scraper prints with str(), so
      they are kept as decimals (Dec) that Show prints. */
  datatype SolarRate = SolarRate(unitPrice: Dec, volume: Dec)

  /** A solar feed-in tariff entry; fitType "G" marks a government scheme,
      "R" a retailer offer. */
  datatype SolarFit = SolarFit(fitType: string, rate: Option<real>, singleTariffRates: seq<SolarRate>)

  /** A controlled-load rate; None when it has no unitPrice key. */
  datatype ClRate = ClRate(unitPrice: Option<real>)

  /** A controlled-load tariff: the fields of its singleRate object, with
      displayName defaulting to "Controlled Load" and the supply charge to 0. */
  datatype ControlledLoad = ControlledLoad(displayName: string, rates: seq<ClRate>, dailySupplyCharge: real)

  /** A discount; name defaults to "Discount". */
  datatype Discount = Discount(name: string, percent: Option<Dec>, amount: Option<Dec>)

  /** A fee; amount defaults to 0. */
  datatype Fee = Fee(feeType: Option<string>, amount: real)

  /** A plan contract. pricingModel is "" when absent; "TOU" marks
      time-of-use pricing and "SR" a single rate. */
  datatype Contract = Contract(
    pricingModel: string,
    tariffPeriods: seq<TariffPeriod>,
    solarFits: seq<SolarFit>,
    controlledLoads: seq<ControlledLoad>,
    discounts: seq<Discount>,
    fees: seq<Fee>,
    paymentOptions: seq<string>,
    meterTypes: seq<string>,
    benefitPeriod: string,
    termType: string)

  /** A plan as the API returns it; distributorTag is the distributor name
      the scraper attaches to each plan it fetched. fuelType is None when
      planData has no fuelType key; a plan without planData at all is one
      with neither contracts nor fuelType, since each of those lookups
      raises for it. */
  datatype Plan = Plan(
    planId: string,
    planName: string,
    retailerName: string,
    tariffType: string,
    fuelType: Option<string>,
    contracts: seq<Contract>,
    distributorTag: Option<string>)
}
