/** The provider's point-in-time info snapshot and the fields the pipeline derives from
    it on its own: the quoted price, the analyst growth estimate, the display name and the
    raw sector string. */
module InfoSnapshot {
  import opened Optional

  /** The `info` dictionary: numeric fields and text fields; a key that is absent from
      its map is missing from the snapshot. */
  datatype Info = Info(numbers: map<string, real>, texts: map<string, string>)

  /** `info.get(key)` for a numeric field. */
  function Get(info: Info, key: string): Option<real>
  {
    if key in info.numbers then Some(info.numbers[key]) else None
  }

  /** `info.get(key, default)` for a numeric field. */
  function GetOr(info: Info, key: string, default: real): (v: real)
    ensures key in info.numbers ==> v == info.numbers[key]
    ensures key !in info.numbers ==> v == default
  {
    if key in info.numbers then info.numbers[key] else default
  }

  /** Python truthiness of a number that may be `None`: present and non-zero. */
  predicate Truthy(v: Option<real>)
  {
    v.Some? && v.value != 0.0
  }

  /** `info.get('currentPrice') or info.get('previousClose')`, followed by the
      `if not price` skip: `None` means the security is skipped. A current price of 0
      falls through to the previous close. */
  function Price(info: Info): (p: Option<real>)
    ensures p.Some? <==> Truthy(Get(info, "currentPrice")) || Truthy(Get(info, "previousClose"))
    ensures Truthy(Get(info, "currentPrice")) ==> p == Get(info, "currentPrice")
    ensures !Truthy(Get(info, "currentPrice")) && p.Some? ==> p == Get(info, "previousClose")
    ensures p.Some? ==> p.value != 0.0
  {
    var price := if Truthy(Get(info, "currentPrice")) then Get(info, "currentPrice")
                 else Get(info, "previousClose");
    if Truthy(price) then price else None
  }

  /** Both inputs of the PEG inversion are usable: a non-zero trailing P/E and a
      positive PEG ratio. */
  predicate PegUsable(info: Info)
  {
    Truthy(Get(info, "trailingPE")) && "pegRatio" in info.numbers && info.numbers["pegRatio"] > 0.0
  }

  /** The analyst growth estimate, in percent: `earningsGrowth` x 100 when that field is
      truthy; else the growth the PEG identity PEG = PE / growth implies; else 0. The
      result is non-zero exactly when one of the two sources is usable. */
  function AnalystGrowth(info: Info): (g: real)
    ensures Truthy(Get(info, "earningsGrowth")) ==> g == info.numbers["earningsGrowth"] * 100.0
    ensures !Truthy(Get(info, "earningsGrowth")) && PegUsable(info) ==>
              g * info.numbers["pegRatio"] == info.numbers["trailingPE"]
    ensures g != 0.0 <==> Truthy(Get(info, "earningsGrowth")) || PegUsable(info)
  {
    var earnings := Get(info, "earningsGrowth");
    if Truthy(earnings) then earnings.value * 100.0
    else if PegUsable(info) then info.numbers["trailingPE"] / info.numbers["pegRatio"]
    else 0.0
  }

  /** A trailing P/E of 30 with a PEG ratio of 1.5 and no earnings growth implies 20%. */
  lemma PegInversionExample()
    ensures AnalystGrowth(Info(map["trailingPE" := 30.0, "pegRatio" := 1.5], map[])) == 20.0
  {
  }

  /** `info.get('shortName') or info.get('longName')`: an empty short name falls
      through to the long name. */
  function DisplayName(info: Info): (n: Option<string>)
    ensures "shortName" in info.texts && info.texts["shortName"] != [] ==>
              n == Some(info.texts["shortName"])
    ensures !("shortName" in info.texts && info.texts["shortName"] != []) ==>
              (n.Some? <==> "longName" in info.texts) && (n.Some? ==> n.value == info.texts["longName"])
  {
    if "shortName" in info.texts && info.texts["shortName"] != [] then Some(info.texts["shortName"])
    else if "longName" in info.texts then Some(info.texts["longName"])
    else None
  }

  /** `info.get('sector', 'General')`. */
  function SectorName(info: Info): (s: string)
    ensures "sector" in info.texts ==> s == info.texts["sector"]
    ensures "sector" !in info.texts ==> s == "General"
  {
    if "sector" in info.texts then info.texts["sector"] else "General"
  }
}
