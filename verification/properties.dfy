/**
 * `PaystackProperties`: the two credential bundles, the environment selector,
 * the webhook secret and the callback URL, bound once at start-up and only read
 * afterwards. Every field may be unset (`null`).
 */
module PaystackProperties {
  import opened Wrappers
  import opened JavaText

  /** One credential bundle (`EnvironmentConfig`). */
  datatype EnvironmentConfig = EnvironmentConfig(secretKey: JString, publicKey: JString, baseUrl: JString)

  datatype Properties = Properties(
    test: Option<EnvironmentConfig>,
    production: Option<EnvironmentConfig>,
    activeEnv: JString,
    webhookSecret: JString,
    callbackUrl: JString)

  /** The selector value that picks the live bundle. */
  const ProductionEnv: string := "production"

  /** `isProduction()`: the selector equals "production", ignoring case. */
  predicate IsProduction(p: Properties): (r: bool)
    ensures r ==> p.activeEnv.Some? && |p.activeEnv.value| == |ProductionEnv|
    ensures p.activeEnv == Some(ProductionEnv) ==> r
  {
    EqualsIgnoreCase(ProductionEnv, p.activeEnv)
  }

  /** `getActiveConfig()`: the production bundle when the selector says so, the test bundle otherwise. */
  function GetActiveConfig(p: Properties): (c: Option<EnvironmentConfig>)
    ensures IsProduction(p) ==> c == p.production
    ensures !IsProduction(p) ==> c == p.test
  {
    if EqualsIgnoreCase(ProductionEnv, p.activeEnv) then p.production else p.test
  }

  /**
   * The selector values that choose production, spelled out: ten characters,
   * each the letter of "production" in either case; in the place of the 'i'
   * Java's case mapping also admits the dotless 'ı' and the dotted 'İ'.
   */
  predicate SpellsProduction(env: string)
  {
    && |env| == 10
    && forall k :: 0 <= k < 10 ==>
         || env[k] == "production"[k]
         || env[k] == "PRODUCTION"[k]
         || (k == 7 && (env[k] == DotlessSmallI || env[k] == CapitalIWithDot))
  }

  /** `isProduction()` holds exactly for a non-null selector that spells "production". */
  lemma IsProductionIffSpelled(p: Properties)
    ensures IsProduction(p) <==> p.activeEnv.Some? && SpellsProduction(p.activeEnv.value)
  {
    if p.activeEnv.Some? && |p.activeEnv.value| == 10 {
      var env := p.activeEnv.value;
      forall k | 0 <= k < 10
        ensures CharEqualsIgnoreCase(ProductionEnv[k], env[k]) <==>
          || env[k] == "production"[k]
          || env[k] == "PRODUCTION"[k]
          || (k == 7 && (env[k] == DotlessSmallI || env[k] == CapitalIWithDot))
      {
        MatchesAsciiLetter(ProductionEnv[k], env[k]);
      }
    }
  }

  /** With no selector configured, the test bundle is active and `isProduction()` is false. */
  lemma NullSelectorIsTest(p: Properties)
    requires p.activeEnv.None?
    ensures !IsProduction(p) && GetActiveConfig(p) == p.test
  {
  }

  /** Matching ignores case only: every capitalisation of "production" selects the live bundle. */
  lemma CapitalisedSelectorIsProduction(p: Properties)
    requires p.activeEnv == Some("PRODUCTION") || p.activeEnv == Some("Production")
    ensures IsProduction(p) && GetActiveConfig(p) == p.production
  {
    IsProductionIffSpelled(p);
  }

  /** Prefixes, padding and other near misses select the test bundle. */
  lemma NearMissSelectorIsTest(p: Properties)
    requires p.activeEnv in {Some("prod"), Some(" production"), Some("production "), Some("live"), Some("")}
    ensures !IsProduction(p) && GetActiveConfig(p) == p.test
  {
  }

  /** Java's case mapping lets the Turkish dotted capital I stand for the 'i'. */
  lemma DottedISelectorIsProduction(p: Properties)
    requires p.activeEnv == Some("PRODUCT" + [CapitalIWithDot] + "ON")
    ensures IsProduction(p) && GetActiveConfig(p) == p.production
  {
    IsProductionIffSpelled(p);
  }
}
