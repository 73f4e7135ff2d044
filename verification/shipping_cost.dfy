/**
 * The simulated shipping quote of `ShippingMethodForm`: a fixed table from
 * (region tier, method) to a whole number of reais. The region is the
 * `shipmentState` value the browser's storage holds, passed in here as an
 * optional string; an absent or empty value stands for "SP".
 */
module ShippingCost {
  import opened Wrappers
  import opened JsValues

  datatype Method = Sedex | Pac | Transportadora

  /** The value a method's radio button carries. */
  function MethodValue(m: Method): string {
    match m
    case Sedex => "sedex"
    case Pac => "pac"
    case Transportadora => "transportadora"
  }

  /** The method a radio value names, if any. */
  function ParseMethod(value: string): (m: Option<Method>)
    ensures m.Some? ==> MethodValue(m.value) == value
    ensures m.None? ==> forall k: Method :: MethodValue(k) != value
  {
    if value == "sedex" then Some(Sedex)
    else if value == "pac" then Some(Pac)
    else if value == "transportadora" then Some(Transportadora)
    else None
  }

  /** Parsing a method's own value gives the method back. */
  lemma ParseMethodValue(m: Method)
    ensures ParseMethod(MethodValue(m)) == Some(m)
  {
  }

  /** Distinct methods carry distinct values. */
  lemma MethodValueInjective(a: Method, b: Method)
    ensures MethodValue(a) == MethodValue(b) ==> a == b
  {
    ParseMethodValue(a);
    ParseMethodValue(b);
  }

  const DefaultRegion := "SP"

  /** `localStorage.getItem('shipmentState') || 'SP'`. */
  function EffectiveRegion(stored: Option<string>): (region: string)
    ensures region != ""
    ensures Truthy(stored) ==> region == stored.value
    ensures !Truthy(stored) ==> region == "SP"
  {
    Or(stored, DefaultRegion)
  }

  /** The two price tiers: São Paulo or Rio de Janeiro, and everywhere else. */
  datatype Tier = SpOrRj | OtherRegion

  function TierOf(region: string): (t: Tier)
    ensures t == SpOrRj <==> region == "SP" || region == "RJ"
  {
    if region == "SP" || region == "RJ" then SpOrRj else OtherRegion
  }

  /** The price table, in reais. */
  function Cost(t: Tier, m: Method): (reais: int)
    ensures reais > 0
  {
    match (t, m)
    case (SpOrRj, Sedex) => 20
    case (SpOrRj, Pac) => 15
    case (SpOrRj, Transportadora) => 40
    case (OtherRegion, Sedex) => 30
    case (OtherRegion, Pac) => 20
    case (OtherRegion, Transportadora) => 40
  }

  /** In SP or RJ: sedex 20, pac 15, transportadora 40. */
  lemma SpOrRjPrices(region: string)
    requires region == "SP" || region == "RJ"
    ensures Cost(TierOf(region), Sedex) == 20
    ensures Cost(TierOf(region), Pac) == 15
    ensures Cost(TierOf(region), Transportadora) == 40
  {
  }

  /** Anywhere else: sedex 30, pac 20, transportadora 40. */
  lemma OtherRegionPrices(region: string)
    requires region != "SP" && region != "RJ"
    ensures Cost(TierOf(region), Sedex) == 30
    ensures Cost(TierOf(region), Pac) == 20
    ensures Cost(TierOf(region), Transportadora) == 40
  {
  }

  /** Transportadora is a flat rate, and no method is dearer in SP or RJ than elsewhere. */
  lemma TierComparison(m: Method)
    ensures Cost(SpOrRj, Transportadora) == Cost(OtherRegion, Transportadora)
    ensures Cost(SpOrRj, m) <= Cost(OtherRegion, m)
  {
  }

  /** With nothing stored, or an empty string, the customer pays SP prices. */
  lemma MissingRegionGetsSpPrices(stored: Option<string>, m: Method)
    requires !Truthy(stored)
    ensures TierOf(EffectiveRegion(stored)) == SpOrRj
    ensures Cost(TierOf(EffectiveRegion(stored)), m) == Cost(TierOf("SP"), m)
  {
  }

  /** The amounts the table can quote. */
  ghost predicate IsQuote(reais: int) {
    exists t: Tier, m: Method :: Cost(t, m) == reais
  }

  /**
   * The deferred computation's cost update, as the component writes it: a
   * chain of string comparisons on the captured method inside a branch on
   * the region read at that moment. An unrecognised method leaves the
   * previous cost in place.
   */
  function CostAtFire(captured: string, stored: Option<string>, previous: int): (reais: int)
    ensures ParseMethod(captured).Some? ==> reais == Cost(TierOf(EffectiveRegion(stored)), ParseMethod(captured).value)
    ensures ParseMethod(captured).None? ==> reais == previous
  {
    var region := EffectiveRegion(stored);
    if region == "SP" || region == "RJ" then
      if captured == "sedex" then 20
      else if captured == "pac" then 15
      else if captured == "transportadora" then 40
      else previous
    else
      if captured == "sedex" then 30
      else if captured == "pac" then 20
      else if captured == "transportadora" then 40
      else previous
  }
}
